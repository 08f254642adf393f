/**
 * The iOS `TimerViewModel`: the speaker list built from the session's team
 * composition, the time-remaining warnings, speaker navigation, recording
 * start and stop, the upload status sequence, and the feedback poll that
 * applies each status response to the recording in place. The audio
 * recorder's results, the upload outcome and the poll responses are inputs.
 */
module IosTimer {
  import opened Wrappers
  import opened Text
  import opened Statuses
  import opened Formats
  import opened Models
  import opened SpeakerOrder
  import opened Repository
  import opened IosRecording
  import opened IosTimerService

  // ------------------------------------------------------------ speakers

  /** One entry of `speakers`. */
  datatype Speaker = Speaker(name: string, position: string, studentId: string)

  /**
   * `setupSpeakers`: nothing without a composition; otherwise the speaking
   * order, each entry named after the first student with that id, or
   * "Unknown".
   */
  function SetupSpeakers(composition: Option<TeamComposition>, format: DebateFormat, students: seq<Student>): (r: seq<Speaker>)
    ensures composition.None? ==> r == []
    ensures composition.Some? ==> var order := SpeakerOrderSpec(composition.value, format);
      |r| == |order| && forall i :: 0 <= i < |r| ==>
        r[i] == Speaker(NameFor(students, order[i].studentId), order[i].position, order[i].studentId)
  {
    match composition
    case None => []
    case Some(c) =>
      var order := SpeakerOrderSpec(c, format);
      seq(|order|, i requires 0 <= i < |order| => Speaker(NameFor(students, order[i].studentId), order[i].position, order[i].studentId))
  }

  /** Every speaker is someone from the composition's teams for the format, each as often as listed. */
  lemma SpeakersComeFromTeams(c: TeamComposition, format: DebateFormat, students: seq<Student>)
    ensures var r := SetupSpeakers(Some(c), format, students);
      multiset(seq(|r|, i requires 0 <= i < |r| => r[i].studentId)) == multiset(Ids(SpeakerOrderSpec(c, format)))
  {
    var r := SetupSpeakers(Some(c), format, students);
    var order := SpeakerOrderSpec(c, format);
    assert seq(|r|, i requires 0 <= i < |r| => r[i].studentId) == Ids(order);
  }

  // ------------------------------------------------------------ warnings

  datatype WarningLevel = NoWarning | OneMinute | ThirtySeconds | FifteenSeconds

  /** `timeRemaining`, in milliseconds: the expected duration minus the elapsed time, never below zero. */
  function TimeRemaining(speechSeconds: int, elapsedMillis: int): (r: int)
    ensures r >= 0
    ensures r == 0 <==> elapsedMillis >= speechSeconds * 1000
    ensures r > 0 ==> r + elapsedMillis == speechSeconds * 1000
  {
    var left := speechSeconds * 1000 - elapsedMillis;
    if left > 0 then left else 0
  }

  /** `currentWarningLevel`: none in overtime; otherwise by the time left, the tightest threshold first. */
  function CurrentWarningLevel(speechSeconds: int, elapsedMillis: int): (w: WarningLevel)
  {
    if elapsedMillis > speechSeconds * 1000 then NoWarning
    else
      var remaining := TimeRemaining(speechSeconds, elapsedMillis);
      if remaining <= 15000 then FifteenSeconds
      else if remaining <= 30000 then ThirtySeconds
      else if remaining <= 60000 then OneMinute
      else NoWarning
  }

  /**
   * Before overtime each level covers one band of time left: at most 15 s,
   * (15 s, 30 s], (30 s, 60 s]; more than a minute left or any overtime
   * shows none. At the exact end the tightest warning still shows.
   */
  lemma WarningBands(d: int, e: int)
    ensures var left := d * 1000 - e;
      && (CurrentWarningLevel(d, e) == FifteenSeconds <==> 0 <= left <= 15000)
      && (CurrentWarningLevel(d, e) == ThirtySeconds <==> 15000 < left <= 30000)
      && (CurrentWarningLevel(d, e) == OneMinute <==> 30000 < left <= 60000)
      && (CurrentWarningLevel(d, e) == NoWarning <==> (left < 0 || left > 60000))
    ensures CurrentWarningLevel(d, d * 1000) == FifteenSeconds
  {
  }

  /** As time passes within one speech the warning only tightens until overtime clears it. */
  lemma WarningsTighten(d: int, e1: int, e2: int)
    requires e1 <= e2 <= d * 1000
    ensures CurrentWarningLevel(d, e1) == FifteenSeconds ==> CurrentWarningLevel(d, e2) == FifteenSeconds
    ensures CurrentWarningLevel(d, e1) == ThirtySeconds ==> CurrentWarningLevel(d, e2) in {ThirtySeconds, FifteenSeconds}
    ensures CurrentWarningLevel(d, e1) == OneMinute ==> CurrentWarningLevel(d, e2) in {OneMinute, ThirtySeconds, FifteenSeconds}
  {
  }

  // ------------------------------------------------------------ status responses

  /** The fields of a speech status response that `apply(statusResponse:to:)` reads. */
  datatype IosStatusResponse = IosStatusResponse(
    status: string, errorMessage: Option<string>,
    transcriptionStatus: Option<string>, transcriptionError: Option<string>,
    feedbackStatus: Option<string>, feedbackError: Option<string>,
    googleDocUrl: Option<string>, transcriptUrl: Option<string>, transcriptDownloadUrl: Option<string>,
    transcriptText: Option<string>)

  /** `if let x = field, !x.isEmpty`. */
  predicate Present(o: Option<string>)
  {
    o.Some? && |o.value| > 0
  }

  /** The transcription status after the explicit status, the overall "complete" fallback and an error. */
  function NextTranscriptionStatus(s: RecordingStages, resp: IosStatusResponse): ProcessingStatus
  {
    if Present(resp.transcriptionError) then ProcessingStatus.Failed
    else if resp.transcriptionStatus.Some? then FromApi(resp.transcriptionStatus)
    else if Lower(resp.status) == "complete" && s.transcriptionStatus != ProcessingStatus.Complete then ProcessingStatus.Complete
    else s.transcriptionStatus
  }

  /** The feedback status, by the same steps with the feedback fields. */
  function NextFeedbackStatus(s: RecordingStages, resp: IosStatusResponse): ProcessingStatus
  {
    if Present(resp.feedbackError) then ProcessingStatus.Failed
    else if resp.feedbackStatus.Some? then FromApi(resp.feedbackStatus)
    else if Lower(resp.status) == "complete" then ProcessingStatus.Complete
    else s.feedbackStatus
  }

  /**
   * The stages after `apply(statusResponse:to:)`: the two stage statuses,
   * their error messages (a general error is filed under the failed stage,
   * feedback first), the artefact links and text when present and
   * non-empty, and the aggregate. Upload status and speech id are kept.
   */
  function ApplyResponse(s: RecordingStages, resp: IosStatusResponse): (r: RecordingStages)
    ensures r.uploadStatus == s.uploadStatus && r.speechId == s.speechId
    ensures r.processingStatus == Aggregate(r.feedbackStatus, r.transcriptionStatus)
  {
    var t := NextTranscriptionStatus(s, resp);
    var f := NextFeedbackStatus(s, resp);
    var tmsg := if Present(resp.transcriptionError) then resp.transcriptionError else s.transcriptionErrorMessage;
    var fmsg := if Present(resp.feedbackError) then resp.feedbackError else s.feedbackErrorMessage;
    var transcriptLink := resp.transcriptUrl.Or(resp.transcriptDownloadUrl);
    var general := Present(resp.errorMessage);
    s.(transcriptionStatus := t, feedbackStatus := f,
       transcriptionErrorMessage := if general && f != ProcessingStatus.Failed && t == ProcessingStatus.Failed then resp.errorMessage else tmsg,
       feedbackErrorMessage := if general && f == ProcessingStatus.Failed then resp.errorMessage else fmsg,
       feedbackUrl := if Present(resp.googleDocUrl) then resp.googleDocUrl else s.feedbackUrl,
       transcriptUrl := if Present(transcriptLink) then transcriptLink else s.transcriptUrl,
       transcriptText := if Present(resp.transcriptText) then resp.transcriptText else s.transcriptText,
       processingStatus := Aggregate(f, t))
  }

  /** What `apply` returns: a stage failed, or feedback is complete. */
  predicate IsTerminalStages(s: RecordingStages)
  {
    s.transcriptionStatus == ProcessingStatus.Failed || s.feedbackStatus == ProcessingStatus.Failed
      || s.feedbackStatus == ProcessingStatus.Complete
  }

  /** `apply` ends the poll exactly when the recording's overall status becomes complete or failed. */
  lemma TerminalIffSettled(s: RecordingStages, resp: IosStatusResponse)
    ensures var r := ApplyResponse(s, resp);
      IsTerminalStages(r) <==> r.processingStatus in {ProcessingStatus.Complete, ProcessingStatus.Failed}
  {
  }

  /**
   * The stage statuses: a non-empty stage error forces failed; otherwise
   * an explicit stage status wins; otherwise an overall "complete" (any
   * case) completes the stage; otherwise the old status is kept. An
   * absent field therefore never moves a stage back to pending.
   */
  lemma ApplyStageStatuses(s: RecordingStages, resp: IosStatusResponse)
    ensures var r := ApplyResponse(s, resp);
      && (Present(resp.transcriptionError) ==> r.transcriptionStatus == ProcessingStatus.Failed)
      && (Present(resp.transcriptionError) && !Present(resp.errorMessage) ==> r.transcriptionErrorMessage == resp.transcriptionError)
      && (!Present(resp.transcriptionError) && resp.transcriptionStatus.Some? ==> r.transcriptionStatus == FromApi(resp.transcriptionStatus))
      && (!Present(resp.transcriptionError) && resp.transcriptionStatus.None? ==>
            r.transcriptionStatus == (if Lower(resp.status) == "complete" then ProcessingStatus.Complete else s.transcriptionStatus))
      && (Present(resp.feedbackError) ==> r.feedbackStatus == ProcessingStatus.Failed)
      && (Present(resp.feedbackError) && !Present(resp.errorMessage) ==> r.feedbackErrorMessage == resp.feedbackError)
      && (!Present(resp.feedbackError) && resp.feedbackStatus.Some? ==> r.feedbackStatus == FromApi(resp.feedbackStatus))
      && (!Present(resp.feedbackError) && resp.feedbackStatus.None? ==>
            r.feedbackStatus == (if Lower(resp.status) == "complete" then ProcessingStatus.Complete else s.feedbackStatus))
  {
  }

  /** A general error message goes to the failed feedback stage first, else to the failed transcription, else nowhere. */
  lemma GeneralErrorPlacement(s: RecordingStages, resp: IosStatusResponse)
    requires Present(resp.errorMessage)
    ensures var r := ApplyResponse(s, resp);
      && (r.feedbackStatus == ProcessingStatus.Failed ==> r.feedbackErrorMessage == resp.errorMessage)
      && (r.feedbackStatus != ProcessingStatus.Failed && r.transcriptionStatus == ProcessingStatus.Failed ==>
            r.transcriptionErrorMessage == resp.errorMessage)
      && (r.feedbackStatus != ProcessingStatus.Failed && r.transcriptionStatus != ProcessingStatus.Failed ==>
            r.transcriptionErrorMessage == s.transcriptionErrorMessage && r.feedbackErrorMessage == s.feedbackErrorMessage)
  {
  }

  /**
   * A transcript URL that is present but empty hides the download URL:
   * `??` picks the empty string, which is then skipped, so the old link stays.
   */
  lemma EmptyTranscriptUrlHidesDownloadUrl(s: RecordingStages, resp: IosStatusResponse)
    requires resp.transcriptUrl == Some("") && Present(resp.transcriptDownloadUrl)
    ensures ApplyResponse(s, resp).transcriptUrl == s.transcriptUrl
  {
  }

  /** Applying the same response twice has the effect of applying it once. */
  lemma ApplyResponseIdempotent(s: RecordingStages, resp: IosStatusResponse)
    ensures ApplyResponse(ApplyResponse(s, resp), resp) == ApplyResponse(s, resp)
  {
  }

  // ------------------------------------------------------------ polling

  const MaxPollAttempts := 60
  const TimedOutMessage := "Timed out waiting for feedback"

  /** The stages after the poll gives up: feedback failed with the time-out message, aggregate updated. */
  function TimedOut(s: RecordingStages): (r: RecordingStages)
    ensures r.feedbackStatus == ProcessingStatus.Failed && r.processingStatus == ProcessingStatus.Failed
    ensures r.feedbackErrorMessage == Some(TimedOutMessage)
  {
    WithAggregate(s.(feedbackStatus := ProcessingStatus.Failed, feedbackErrorMessage := Some(TimedOutMessage)))
  }

  /** The result of polling: the final stages and the number of status requests made. */
  datatype PollResult = PollResult(stages: RecordingStages, requests: nat)

  /**
   * `pollForFeedback` from attempt `i` on: a failed request is skipped, a
   * response is applied and ends the poll when terminal; after 60 attempts
   * the feedback stage times out.
   */
  function PollFrom(fetch: nat -> Result<IosStatusResponse>, i: nat, s: RecordingStages): PollResult
    decreases MaxPollAttempts - i
  {
    if i >= MaxPollAttempts then PollResult(TimedOut(s), i)
    else match fetch(i)
      case Failure(_) => PollFrom(fetch, i + 1, s)
      case Success(resp) =>
        var u := ApplyResponse(s, resp);
        if IsTerminalStages(u) then PollResult(u, i + 1) else PollFrom(fetch, i + 1, u)
  }

  /**
   * A poll makes at most 60 requests and always leaves the recording
   * settled: its overall status is complete or failed, and fewer than 60
   * requests mean a response ended it.
   */
  lemma {:induction false} PollSettles(fetch: nat -> Result<IosStatusResponse>, i: nat, s: RecordingStages)
    requires i <= MaxPollAttempts
    ensures var r := PollFrom(fetch, i, s);
      && i <= r.requests <= MaxPollAttempts
      && r.stages.processingStatus in {ProcessingStatus.Complete, ProcessingStatus.Failed}
      && r.stages.uploadStatus == s.uploadStatus && r.stages.speechId == s.speechId
    decreases MaxPollAttempts - i
  {
    if i < MaxPollAttempts {
      match fetch(i)
      case Failure(_) =>
        PollSettles(fetch, i + 1, s);
      case Success(resp) =>
        var u := ApplyResponse(s, resp);
        TerminalIffSettled(s, resp);
        if !IsTerminalStages(u) {
          PollSettles(fetch, i + 1, u);
        }
    }
  }

  /** When every request fails the poll times out after 60 requests with feedback failed. */
  lemma {:induction false} SilentBackendTimesOut(fetch: nat -> Result<IosStatusResponse>, i: nat, s: RecordingStages)
    requires i <= MaxPollAttempts
    requires forall k :: i <= k < MaxPollAttempts ==> fetch(k).Failure?
    ensures PollFrom(fetch, i, s) == PollResult(TimedOut(s), MaxPollAttempts)
    decreases MaxPollAttempts - i
  {
    if i < MaxPollAttempts {
      SilentBackendTimesOut(fetch, i + 1, s);
    }
  }

  // ------------------------------------------------------------ upload stages

  /** The stages set before the upload call: uploading, transcription processing, feedback pending. */
  function UploadingStages(s: RecordingStages): (r: RecordingStages)
    ensures r.uploadStatus == UploadStatus.Uploading && r.processingStatus == ProcessingStatus.Processing
  {
    WithAggregate(s.(uploadStatus := UploadStatus.Uploading, transcriptionStatus := ProcessingStatus.Processing,
                     feedbackStatus := ProcessingStatus.Pending))
  }

  /** After a successful upload: uploaded, feedback processing, the backend speech id stored. */
  function UploadedStages(s: RecordingStages, speechId: string): (r: RecordingStages)
    ensures r.uploadStatus == UploadStatus.Uploaded && r.speechId == Some(speechId)
  {
    WithAggregate(s.(uploadStatus := UploadStatus.Uploaded, feedbackStatus := ProcessingStatus.Processing)).(speechId := Some(speechId))
  }

  /** After a failed upload: upload and transcription failed, with the reason as the transcription message. */
  function UploadFailedStages(s: RecordingStages, reason: string): (r: RecordingStages)
    ensures r.uploadStatus == UploadStatus.Failed && r.processingStatus == ProcessingStatus.Failed
    ensures FailureDetails(r) == Some("Upload failed: " + reason)
  {
    WithAggregate(s.(uploadStatus := UploadStatus.Failed, transcriptionStatus := ProcessingStatus.Failed,
                     transcriptionErrorMessage := Some("Upload failed: " + reason)))
  }

  /**
   * Whatever the recording's stages were, a successful upload leaves it
   * processing with feedback pending on the poll, and a failed one leaves
   * it failed with the upload error as its explanation.
   */
  lemma UploadOutcomes(s: RecordingStages, speechId: string, reason: string)
    ensures var u := UploadedStages(UploadingStages(s), speechId);
      u.transcriptionStatus == ProcessingStatus.Processing && u.feedbackStatus == ProcessingStatus.Processing
      && u.processingStatus == ProcessingStatus.Processing && !IsTerminalStages(u)
    ensures var f := UploadFailedStages(UploadingStages(s), reason);
      f.feedbackStatus == ProcessingStatus.Pending && IsTerminalStages(f)
  {
  }

  // ------------------------------------------------------------ the view model

  class IosTimerViewModel {
    const sessionId: string
    const speechTimeSeconds: int
    const timerService: IosTimerService
    var currentSpeakerIndex: int
    var speakers: seq<Speaker>
    var isRecording: bool
    var currentRecordingUrl: Option<string>
    var recordings: seq<IosSpeechRecording>
    var showError: bool
    var errorMessage: string
    var uploadProgress: map<string, real>
    var has60sWarningFired: bool
    var has30sWarningFired: bool
    var has15sWarningFired: bool

    ghost predicate Valid()
      reads this, timerService
    {
      && timerService.Valid() && timerService.speechDuration == speechTimeSeconds
      && 0 <= currentSpeakerIndex && (|speakers| > 0 ==> currentSpeakerIndex < |speakers|)
      && (isRecording ==> |speakers| > 0)
    }

    /**
     * `init`: a timer for the session's speech time, the speakers from its
     * composition, and its stored recordings (already in creation order).
     */
    constructor(session: DebateSession, students: seq<Student>, existing: seq<IosSpeechRecording>)
      ensures Valid() && fresh(timerService)
      ensures sessionId == session.id && speechTimeSeconds == session.speechTimeSeconds
      ensures speakers == SetupSpeakers(session.teamComposition, session.format, students)
      ensures currentSpeakerIndex == 0 && !isRecording && currentRecordingUrl.None? && recordings == existing
      ensures !showError && errorMessage == "" && uploadProgress == map[]
      ensures !has60sWarningFired && !has30sWarningFired && !has15sWarningFired
      ensures timerService.state == IosIdle
    {
      sessionId := session.id;
      speechTimeSeconds := session.speechTimeSeconds;
      timerService := new IosTimerService(session.speechTimeSeconds);
      currentSpeakerIndex := 0;
      speakers := SetupSpeakers(session.teamComposition, session.format, students);
      isRecording := false;
      currentRecordingUrl := None;
      recordings := existing;
      showError := false;
      errorMessage := "";
      uploadProgress := map[];
      has60sWarningFired, has30sWarningFired, has15sWarningFired := false, false, false;
    }

    predicate CanGoBack()
      reads this
    {
      currentSpeakerIndex > 0
    }

    predicate CanGoForward()
      reads this
    {
      currentSpeakerIndex < |speakers| - 1
    }

    /**
     * `isDebateComplete`: as many recordings as speakers. Only counts are
     * compared, so while complete the current speaker always has a
     * recording's worth of slots behind it.
     */
    predicate IsDebateComplete()
      reads this
      ensures IsDebateComplete() && 0 <= currentSpeakerIndex < |speakers| ==> currentSpeakerIndex < |recordings|
    {
      |recordings| == |speakers|
    }

    /**
     * `checkAndFireWarnings`: while recording and not in overtime the
     * current level's haptic fires once (its flag was clear and is now
     * set); when not recording all flags clear. Returns whether a haptic fired.
     */
    method CheckAndFireWarnings() returns (fired: bool)
      requires Valid()
      modifies this
      ensures Valid()
      ensures currentSpeakerIndex == old(currentSpeakerIndex) && speakers == old(speakers) && isRecording == old(isRecording)
      ensures recordings == old(recordings) && errorMessage == old(errorMessage) && showError == old(showError)
      ensures currentRecordingUrl == old(currentRecordingUrl) && uploadProgress == old(uploadProgress)
      ensures !isRecording ==> !fired && !has60sWarningFired && !has30sWarningFired && !has15sWarningFired
      ensures isRecording && timerService.IsOvertime() ==> !fired && unchanged(this)
      ensures isRecording && !timerService.IsOvertime() ==>
        var level := CurrentWarningLevel(speechTimeSeconds, timerService.elapsedMillis);
        && has60sWarningFired == (old(has60sWarningFired) || level == OneMinute)
        && has30sWarningFired == (old(has30sWarningFired) || level == ThirtySeconds)
        && has15sWarningFired == (old(has15sWarningFired) || level == FifteenSeconds)
        && fired == ((level == OneMinute && !old(has60sWarningFired))
                     || (level == ThirtySeconds && !old(has30sWarningFired))
                     || (level == FifteenSeconds && !old(has15sWarningFired)))
    {
      fired := false;
      if !(isRecording && !timerService.IsOvertime()) {
        if !isRecording {
          has60sWarningFired, has30sWarningFired, has15sWarningFired := false, false, false;
        }
        return;
      }
      var level := CurrentWarningLevel(speechTimeSeconds, timerService.elapsedMillis);
      match level
      case OneMinute =>
        if !has60sWarningFired { fired := true; has60sWarningFired := true; }
      case ThirtySeconds =>
        if !has30sWarningFired { fired := true; has30sWarningFired := true; }
      case FifteenSeconds =>
        if !has15sWarningFired { fired := true; has15sWarningFired := true; }
      case NoWarning =>
    }

    /**
     * `startTimer`: ignored while recording; the recorder either starts
     * (its file becomes the current one and the timer starts) or fails
     * (its message is shown). Naming the recording reads `currentSpeaker`,
     * which traps on an empty speaker list.
     */
    method StartTimer(recorder: Result<string>, now: int)
      requires Valid()
      requires !isRecording ==> |speakers| > 0
      modifies this`isRecording, this`currentRecordingUrl, this`showError, this`errorMessage, timerService
      ensures Valid()
      ensures old(isRecording) ==> unchanged(this) && unchanged(timerService)
      ensures !old(isRecording) && recorder.Success? ==>
        && isRecording && currentRecordingUrl == Some(recorder.value)
        && showError == old(showError) && errorMessage == old(errorMessage)
      ensures !old(isRecording) && recorder.Success? && old(timerService.state) == IosIdle ==>
        && timerService.state == IosRunning && timerService.startTime == Some(now)
        && timerService.elapsedMillis == 0 && timerService.bellsFired == {}
      ensures !old(isRecording) && recorder.Success? && old(timerService.state) != IosIdle ==> unchanged(timerService)
      ensures !old(isRecording) && recorder.Failure? ==>
        && !isRecording && currentRecordingUrl == old(currentRecordingUrl)
        && showError && errorMessage == recorder.error && unchanged(timerService)
    {
      if isRecording {
        return;
      }
      match recorder
      case Success(url) =>
        currentRecordingUrl := Some(url);
        isRecording := true;
        timerService.Start(now);
      case Failure(e) =>
        errorMessage := e;
        showError := true;
    }

    /**
     * `stopTimer`: ignored unless recording. Without a result from the
     * recorder the state is forced back to idle with an error. A result
     * shorter than one second is discarded with an error while the screen
     * stays in recording. Otherwise the timer stops, a new recording for
     * the current speaker is appended, and `advance` says whether the
     * next speaker will be selected.
     */
    method StopTimer(result: Option<(string, real)>, newId: string, now: int)
      returns (created: Option<IosSpeechRecording>, advance: bool)
      requires Valid()
      modifies this`isRecording, this`currentRecordingUrl, this`showError, this`errorMessage, this`recordings, timerService
      ensures Valid()
      ensures !old(isRecording) ==> unchanged(this) && unchanged(timerService) && created.None? && !advance
      ensures old(isRecording) && (result.None? || result.value.1 >= 1.0) ==>
        && timerService.state == (if old(timerService.state) in {IosRunning, IosPaused} then IosStopped else old(timerService.state))
        && timerService.elapsedMillis == old(timerService.elapsedMillis) && timerService.startTime == old(timerService.startTime)
        && timerService.bellsFired == old(timerService.bellsFired)
      ensures old(isRecording) && result.None? ==>
        && !isRecording && currentRecordingUrl.None? && showError && recordings == old(recordings)
        && errorMessage == "Recording failed or was stopped unexpectedly" && created.None? && !advance
      ensures old(isRecording) && result.Some? && result.value.1 < 1.0 ==>
        && isRecording && currentRecordingUrl == old(currentRecordingUrl)
        && showError && recordings == old(recordings) && unchanged(timerService)
        && errorMessage == "Recording is too short. Please record at least one second of audio." && created.None? && !advance
      ensures old(isRecording) && result.Some? && result.value.1 >= 1.0 ==>
        && showError == old(showError) && errorMessage == old(errorMessage)
        && (IsDebateComplete() <==> |old(recordings)| + 1 == |speakers|)
        && !isRecording && currentRecordingUrl.None? && created.Some? && fresh(created.value)
        && recordings == old(recordings) + [created.value]
        && created.value.Stages() == InitialStages && created.value.localFilePath == result.value.0
        && created.value.durationSeconds == result.value.1.Floor && created.value.debateSessionId == Some(sessionId)
        && created.value.speakerName == speakers[currentSpeakerIndex].name
        && created.value.speakerPosition == speakers[currentSpeakerIndex].position
        && advance == (currentSpeakerIndex < |speakers| - 1)
    {
      created, advance := None, false;
      if !isRecording {
        return;
      }
      if result.None? {
        StopUnexpectedly();
        return;
      }
      var (path, duration) := result.value;
      if duration < 1.0 {
        errorMessage := "Recording is too short. Please record at least one second of audio.";
        showError := true;
        return;
      }
      var recording;
      recording, advance := SaveRecording(path, duration.Floor, newId, now);
      created := Some(recording);
    }

    /** `stopTimer` without a recording: stop everything and report the failure. */
    method StopUnexpectedly()
      requires Valid()
      modifies this`isRecording, this`currentRecordingUrl, this`showError, this`errorMessage, timerService
      ensures Valid()
      ensures timerService.state == (if old(timerService.state) in {IosRunning, IosPaused} then IosStopped else old(timerService.state))
      ensures timerService.elapsedMillis == old(timerService.elapsedMillis) && timerService.startTime == old(timerService.startTime)
      ensures timerService.bellsFired == old(timerService.bellsFired)
      ensures !isRecording && currentRecordingUrl.None? && showError
      ensures errorMessage == "Recording failed or was stopped unexpectedly"
    {
      isRecording := false;
      currentRecordingUrl := None;
      timerService.Stop();
      errorMessage := "Recording failed or was stopped unexpectedly";
      showError := true;
    }

    /** `stopTimer` with a long enough recording: stop, and keep the recording for the current speaker. */
    method SaveRecording(path: string, durationSeconds: int, newId: string, now: int)
      returns (recording: IosSpeechRecording, advance: bool)
      requires Valid() && isRecording
      modifies this`isRecording, this`currentRecordingUrl, this`recordings, timerService
      ensures Valid()
      ensures timerService.state == (if old(timerService.state) in {IosRunning, IosPaused} then IosStopped else old(timerService.state))
      ensures timerService.elapsedMillis == old(timerService.elapsedMillis) && timerService.startTime == old(timerService.startTime)
      ensures timerService.bellsFired == old(timerService.bellsFired)
      ensures IsDebateComplete() <==> |old(recordings)| + 1 == |speakers|
      ensures old(IsDebateComplete()) ==> !IsDebateComplete() && |recordings| == |speakers| + 1
      ensures !isRecording && currentRecordingUrl.None?
      ensures fresh(recording) && recordings == old(recordings) + [recording]
      ensures recording.Stages() == InitialStages && recording.localFilePath == path
      ensures recording.durationSeconds == durationSeconds && recording.debateSessionId == Some(sessionId)
      ensures recording.speakerName == speakers[currentSpeakerIndex].name
      ensures recording.speakerPosition == speakers[currentSpeakerIndex].position
      ensures advance == (currentSpeakerIndex < |speakers| - 1)
    {
      timerService.Stop();
      isRecording := false;
      currentRecordingUrl := None;
      recording := AppendRecording(path, durationSeconds, newId, now);
      advance := currentSpeakerIndex < |speakers| - 1;
    }

    /**
     * The saving half of `stopTimer`: a new pending recording for the
     * current speaker joins the list. `currentSpeaker` must exist.
     */
    method AppendRecording(path: string, durationSeconds: int, newId: string, now: int) returns (recording: IosSpeechRecording)
      requires 0 <= currentSpeakerIndex < |speakers|
      modifies this`recordings
      ensures fresh(recording) && recordings == old(recordings) + [recording]
      ensures recording.Stages() == InitialStages && recording.localFilePath == path
      ensures recording.durationSeconds == durationSeconds && recording.debateSessionId == Some(sessionId)
      ensures recording.speakerName == speakers[currentSpeakerIndex].name
      ensures recording.speakerPosition == speakers[currentSpeakerIndex].position
    {
      var speaker := speakers[currentSpeakerIndex];
      recording := new IosSpeechRecording(newId, speaker.name, speaker.position, path, durationSeconds, now, Some(sessionId));
      recordings := recordings + [recording];
    }

    /** `nextSpeaker`: only when a later speaker exists and nothing is recording; resets the timer and the warnings. */
    method NextSpeaker()
      requires Valid()
      modifies this, timerService
      ensures Valid()
      ensures speakers == old(speakers) && isRecording == old(isRecording) && recordings == old(recordings)
      ensures !(old(CanGoForward()) && !isRecording) ==> unchanged(this) && unchanged(timerService)
      ensures old(CanGoForward()) && !isRecording ==>
        && currentSpeakerIndex == old(currentSpeakerIndex) + 1
        && timerService.state == IosIdle && timerService.elapsedMillis == 0 && timerService.bellsFired == {}
        && !has60sWarningFired && !has30sWarningFired && !has15sWarningFired
    {
      if !(CanGoForward() && !isRecording) {
        return;
      }
      currentSpeakerIndex := currentSpeakerIndex + 1;
      timerService.Reset();
      has60sWarningFired, has30sWarningFired, has15sWarningFired := false, false, false;
    }

    /** `previousSpeaker`: only when an earlier speaker exists and nothing is recording; resets the timer and the warnings. */
    method PreviousSpeaker()
      requires Valid()
      modifies this, timerService
      ensures Valid()
      ensures speakers == old(speakers) && isRecording == old(isRecording) && recordings == old(recordings)
      ensures !(old(CanGoBack()) && !isRecording) ==> unchanged(this) && unchanged(timerService)
      ensures old(CanGoBack()) && !isRecording ==>
        && currentSpeakerIndex == old(currentSpeakerIndex) - 1
        && timerService.state == IosIdle && timerService.elapsedMillis == 0 && timerService.bellsFired == {}
        && !has60sWarningFired && !has30sWarningFired && !has15sWarningFired
    {
      if !(CanGoBack() && !isRecording) {
        return;
      }
      currentSpeakerIndex := currentSpeakerIndex - 1;
      timerService.Reset();
      has60sWarningFired, has30sWarningFired, has15sWarningFired := false, false, false;
    }

    /** The status fields set on the recording before the upload call. */
    method BeginUpload(recording: IosSpeechRecording)
      modifies recording
      ensures recording.Stages() == UploadingStages(old(recording.Stages()))
      ensures recording.uploadProgress == old(recording.uploadProgress)
    {
      recording.uploadStatus := UploadStatus.Uploading;
      recording.transcriptionStatus := ProcessingStatus.Processing;
      recording.feedbackStatus := ProcessingStatus.Pending;
      recording.UpdateAggregatedStatus();
    }

    /** A progress callback of the upload: the recording and the progress table both take the value. */
    method OnUploadProgress(recording: IosSpeechRecording, progress: real)
      modifies this, recording
      ensures recording.uploadProgress == progress && uploadProgress == old(uploadProgress)[recording.id := progress]
      ensures recording.Stages() == old(recording.Stages())
      ensures currentSpeakerIndex == old(currentSpeakerIndex) && speakers == old(speakers) && recordings == old(recordings)
      ensures isRecording == old(isRecording) && errorMessage == old(errorMessage) && showError == old(showError)
    {
      recording.uploadProgress := progress;
      uploadProgress := uploadProgress[recording.id := progress];
    }

    /**
     * The end of `uploadRecording` (also `retryUpload`) once the service
     * answers: a speech id marks the recording uploaded and starts the
     * poll; an error marks upload and transcription failed and is shown.
     */
    method FinishUpload(recording: IosSpeechRecording, outcome: Result<string>) returns (pollSpeechId: Option<string>)
      modifies this, recording
      ensures outcome.Success? ==>
        && recording.Stages() == UploadedStages(old(recording.Stages()), outcome.value)
        && pollSpeechId == Some(outcome.value)
        && errorMessage == old(errorMessage) && showError == old(showError)
      ensures outcome.Failure? ==>
        && recording.Stages() == UploadFailedStages(old(recording.Stages()), outcome.error)
        && pollSpeechId.None? && showError
        && errorMessage == "Failed to upload " + recording.speakerName + "'s speech: " + outcome.error
      ensures currentSpeakerIndex == old(currentSpeakerIndex) && speakers == old(speakers) && recordings == old(recordings)
      ensures isRecording == old(isRecording) && uploadProgress == old(uploadProgress)
    {
      match outcome
      case Success(speechId) =>
        recording.uploadStatus := UploadStatus.Uploaded;
        recording.feedbackStatus := ProcessingStatus.Processing;
        recording.UpdateAggregatedStatus();
        recording.speechId := Some(speechId);
        pollSpeechId := Some(speechId);
      case Failure(e) =>
        recording.uploadStatus := UploadStatus.Failed;
        recording.transcriptionStatus := ProcessingStatus.Failed;
        recording.transcriptionErrorMessage := Some("Upload failed: " + e);
        recording.UpdateAggregatedStatus();
        errorMessage := "Failed to upload " + recording.speakerName + "'s speech: " + e;
        showError := true;
        pollSpeechId := None;
    }

    /** `apply(statusResponse:to:)`: the recording's fields are updated in place; returns whether polling should stop. */
    method Apply(resp: IosStatusResponse, recording: IosSpeechRecording) returns (terminal: bool)
      modifies recording
      ensures recording.Stages() == ApplyResponse(old(recording.Stages()), resp)
      ensures terminal == IsTerminalStages(recording.Stages())
      ensures recording.uploadProgress == old(recording.uploadProgress) && recording.feedbackContent == old(recording.feedbackContent)
    {
      var t, tmsg, f, fmsg := ApplyStageFields(recording.Stages(), resp);
      if Present(resp.googleDocUrl) {
        recording.feedbackUrl := resp.googleDocUrl;
      }
      var transcriptLink := resp.transcriptUrl.Or(resp.transcriptDownloadUrl);
      if Present(transcriptLink) {
        recording.transcriptUrl := transcriptLink;
      }
      if Present(resp.transcriptText) {
        recording.transcriptText := resp.transcriptText;
      }
      recording.transcriptionStatus, recording.transcriptionErrorMessage := t, tmsg;
      recording.feedbackStatus, recording.feedbackErrorMessage := f, fmsg;
      recording.UpdateAggregatedStatus();
      terminal := recording.transcriptionStatus == ProcessingStatus.Failed || recording.feedbackStatus == ProcessingStatus.Failed
        || recording.feedbackStatus == ProcessingStatus.Complete;
    }

    /**
     * The status and message steps of `apply`, in the order the source
     * takes them: explicit or "complete" status, stage error, then the
     * general error filed under the failed stage.
     */
    method ApplyStageFields(s: RecordingStages, resp: IosStatusResponse)
      returns (t: ProcessingStatus, tmsg: Option<string>, f: ProcessingStatus, fmsg: Option<string>)
      ensures var r := ApplyResponse(s, resp);
        t == r.transcriptionStatus && tmsg == r.transcriptionErrorMessage
        && f == r.feedbackStatus && fmsg == r.feedbackErrorMessage
    {
      var lowerStatus := Lower(resp.status);
      t, tmsg := s.transcriptionStatus, s.transcriptionErrorMessage;
      f, fmsg := s.feedbackStatus, s.feedbackErrorMessage;
      if resp.transcriptionStatus.Some? {
        t := FromApi(resp.transcriptionStatus);
      } else if lowerStatus == "complete" && t != ProcessingStatus.Complete {
        t := ProcessingStatus.Complete;
      }
      if Present(resp.transcriptionError) {
        tmsg, t := resp.transcriptionError, ProcessingStatus.Failed;
      }
      if resp.feedbackStatus.Some? {
        f := FromApi(resp.feedbackStatus);
      } else if lowerStatus == "complete" {
        f := ProcessingStatus.Complete;
      }
      if Present(resp.feedbackError) {
        fmsg, f := resp.feedbackError, ProcessingStatus.Failed;
      }
      if Present(resp.errorMessage) {
        if f == ProcessingStatus.Failed {
          fmsg := resp.errorMessage;
        } else if t == ProcessingStatus.Failed {
          tmsg := resp.errorMessage;
        }
      }
    }

    /**
     * `pollForFeedback`: up to 60 status requests; a failed request is
     * skipped, a response is applied and ends the loop when terminal;
     * running out of attempts marks the feedback as timed out.
     */
    method PollForFeedback(recording: IosSpeechRecording, fetch: nat -> Result<IosStatusResponse>) returns (requests: nat)
      modifies recording
      ensures var r := PollFrom(fetch, 0, old(recording.Stages()));
        recording.Stages() == r.stages && requests == r.requests
      ensures recording.uploadProgress == old(recording.uploadProgress)
    {
      var attempts := 0;
      var done := false;
      while attempts < MaxPollAttempts && !done
        invariant 0 <= attempts <= MaxPollAttempts
        invariant recording.uploadProgress == old(recording.uploadProgress)
        invariant PollFrom(fetch, 0, old(recording.Stages())) ==
          (if done then PollResult(recording.Stages(), attempts) else PollFrom(fetch, attempts, recording.Stages()))
        decreases MaxPollAttempts - attempts, !done
      {
        var outcome := fetch(attempts);
        if outcome.Success? {
          var terminal := Apply(outcome.value, recording);
          done := terminal;
        }
        attempts := attempts + 1;
      }
      if !done {
        recording.feedbackStatus := ProcessingStatus.Failed;
        recording.feedbackErrorMessage := Some(TimedOutMessage);
        recording.UpdateAggregatedStatus();
      }
      requests := attempts;
    }
  }
}
