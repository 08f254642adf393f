/**
 * The Android timer screen's view model: the speaker list shown while
 * timing, navigation between speakers, recording start and stop around the
 * timer service, the upload of a finished recording and the status polling
 * that follows it. Audio capture, the upload transport and the status
 * endpoint are inputs: each call receives what they produced.
 */
module AndroidTimer {
  import opened Wrappers
  import opened Text
  import opened Statuses
  import opened Formats
  import opened Models
  import opened SpeakerOrder
  import opened Store
  import opened Room
  import AndroidTimerService

  /** One row of the speaker list. */
  datatype SpeakerDisplay = SpeakerDisplay(studentId: Option<string>, speakerName: string, position: string)

  /** The backend's answer to a status poll. */
  datatype SpeechStatusResponse = SpeechStatusResponse(
    status: string, googleDocUrl: Option<string>, errorMessage: Option<string>,
    transcriptionStatus: Option<string>, transcriptionError: Option<string>,
    feedbackStatus: Option<string>, feedbackError: Option<string>,
    transcriptUrl: Option<string>, transcriptText: Option<string>, transcriptDownloadUrl: Option<string>)

  datatype TimerUiState = TimerUiState(
    session: Option<DebateSession>, students: seq<Student>, speakers: seq<SpeakerDisplay>,
    currentSpeakerIndex: int, elapsedMillis: int, isRecording: bool, isLoading: bool,
    errorMessage: Option<string>, recordings: seq<SpeechRecording>, uploadProgress: map<string, real>,
    lastBellCount: Option<int>, bellTimestamp: Option<int>, activeRecordingFile: Option<string>)

  const InitialState := TimerUiState(None, [], [], 0, 0, false, true, None, [], map[], None, None, None)

  const SessionNotFound := "Session not found"
  const MaxPollAttempts := 60

  /** `students.firstOrNull { it.id == id }`. */
  function FindStudent(students: seq<Student>, id: string): (r: Option<Student>)
    ensures r.None? <==> forall i :: 0 <= i < |students| ==> students[i].id != id
    ensures r.Some? ==> r.value.id == id
    ensures forall i :: (0 <= i < |students| && students[i].id == id
                         && (forall j :: 0 <= j < i ==> students[j].id != id)) ==> r == Some(students[i])
  {
    if students == [] then None
    else if students[0].id == id then Some(students[0])
    else FindStudent(students[1..], id)
  }

  function StudentIdsOf(students: seq<Student>): (r: seq<string>)
    ensures |r| == |students| && forall i :: 0 <= i < |r| ==> r[i] == students[i].id
  {
    seq(|students|, i requires 0 <= i < |students| => students[i].id)
  }

  /** The composition used when a session has none: the first three students propose, the next three oppose. */
  function DefaultComposition(students: seq<Student>): (c: TeamComposition)
    ensures var ids := StudentIdsOf(students);
      && c.prop == Some(ids[..Min(3, |ids|)])
      && c.opp == Some(ids[Min(3, |ids|)..Min(6, |ids|)])
      && c.og.None? && c.oo.None? && c.cg.None? && c.co.None?
  {
    var ids := StudentIdsOf(students);
    var rest := ids[Min(3, |ids|)..];
    assert rest[..Min(3, |rest|)] == ids[Min(3, |ids|)..Min(6, |ids|)];
    TeamComposition(Some(ids[..Min(3, |ids|)]), Some(rest[..Min(3, |rest|)]), None, None, None, None)
  }

  /** One slot shown with its student's name, or with its position label when no student has that id. */
  function Display(students: seq<Student>, slot: SpeakerSlot): SpeakerDisplay
  {
    var s := FindStudent(students, slot.studentId);
    SpeakerDisplay(Some(slot.studentId), if s.Some? then s.value.name else slot.position, slot.position)
  }

  /**
   * `buildSpeakers`: the speaking order of the session's composition (or of
   * the default one); when that order is empty, every student in list order
   * as "Speaker k".
   */
  function BuildSpeakers(session: DebateSession, students: seq<Student>): (r: seq<SpeakerDisplay>)
    ensures var order := SpeakerOrderSpec(session.teamComposition.GetOr(DefaultComposition(students)), session.format);
      && (|order| > 0 ==> |r| == |order| && forall i :: 0 <= i < |r| ==>
            && r[i].studentId == Some(order[i].studentId) && r[i].position == order[i].position
            && r[i].speakerName == (var s := FindStudent(students, order[i].studentId); if s.Some? then s.value.name else order[i].position))
      && (|order| == 0 ==> |r| == |students| && forall i :: 0 <= i < |r| ==>
            r[i] == SpeakerDisplay(Some(students[i].id), students[i].name, "Speaker " + NatToString(i + 1)))
  {
    var order := SpeakerOrderSpec(session.teamComposition.GetOr(DefaultComposition(students)), session.format);
    if |order| > 0 then seq(|order|, i requires 0 <= i < |order| => Display(students, order[i]))
    else seq(|students|, i requires 0 <= i < |students| => SpeakerDisplay(Some(students[i].id), students[i].name, "Speaker " + NatToString(i + 1)))
  }

  /** The student ids of the speaker rows, a missing id read as "". */
  function SpeakerIds(speakers: seq<SpeakerDisplay>): seq<string>
  {
    seq(|speakers|, i requires 0 <= i < |speakers| => speakers[i].studentId.GetOr(""))
  }

  /**
   * Without a stored composition a two-team session times the first six
   * students at most, each exactly once, every row carrying its student's id.
   */
  lemma DefaultSpeakersAreFirstSix(session: DebateSession, students: seq<Student>)
    requires session.teamComposition.None? && session.format != Bp && students != []
    ensures var r := BuildSpeakers(session, students);
      forall i :: 0 <= i < |r| ==> r[i].studentId.Some?
    ensures var ids := StudentIdsOf(students);
      multiset(SpeakerIds(BuildSpeakers(session, students))) == multiset(ids[..Min(6, |ids|)])
  {
    var order := SpeakerOrderSpec(DefaultComposition(students), session.format);
    DefaultOrderIds(session.format, students);
    var r := BuildSpeakers(session, students);
    assert |r| == |order|;
    assert SpeakerIds(r) == Ids(order);
  }

  /** The default composition's two-team order holds the first six student ids, and at least one. */
  lemma DefaultOrderIds(format: DebateFormat, students: seq<Student>)
    requires format != Bp && students != []
    ensures var ids := StudentIdsOf(students); var order := SpeakerOrderSpec(DefaultComposition(students), format);
      multiset(Ids(order)) == multiset(ids[..Min(6, |ids|)]) && |order| > 0
  {
    var ids := StudentIdsOf(students);
    var comp := DefaultComposition(students);
    var order := SpeakerOrderSpec(comp, format);
    SpeakerOrderIds(comp, format);
    var a := ids[..Min(3, |ids|)];
    var b := ids[Min(3, |ids|)..Min(6, |ids|)];
    assert comp.prop == Some(a) && comp.opp == Some(b);
    assert a + b == ids[..Min(6, |ids|)];
    assert multiset(a + b) == multiset(a) + multiset(b);
    assert multiset(Ids(order)) == multiset(a + b);
    assert ids[0] == a[0];
    assert |Ids(order)| == |order|;
  }

  /** A BP session with no stored composition falls back to every student as "Speaker k". */
  lemma BpWithoutCompositionListsEveryStudent(session: DebateSession, students: seq<Student>)
    requires session.teamComposition.None? && session.format == Bp
    ensures var r := BuildSpeakers(session, students);
      |r| == |students| && forall i :: 0 <= i < |r| ==> r[i].speakerName == students[i].name && r[i].position == Label("Speaker", i + 1)
  {
    SpeakerOrderIds(DefaultComposition(students), Bp);
    assert Ids(SpeakerOrderSpec(DefaultComposition(students), Bp)) == [];
  }

  predicate IsTerminal(s: ProcessingStatus)
  {
    s == ProcessingStatus.Complete || s == ProcessingStatus.Failed
  }

  /**
   * `applyStatus`: both stage statuses are taken from the response; links
   * and error messages are replaced only by ones the response carries.
   */
  function ApplyStatus(recording: SpeechRecording, status: SpeechStatusResponse): (r: SpeechRecording)
    ensures r.transcriptionStatus == FromApi(status.transcriptionStatus) && r.feedbackStatus == FromApi(status.feedbackStatus)
    ensures r.transcriptUrl == status.transcriptUrl.Or(recording.transcriptUrl)
    ensures r.feedbackUrl == status.googleDocUrl.Or(recording.feedbackUrl)
    ensures r.feedbackErrorMessage == status.feedbackError.Or(recording.feedbackErrorMessage)
    ensures r.transcriptionErrorMessage == status.transcriptionError.Or(recording.transcriptionErrorMessage)
    ensures recording.feedbackUrl.Some? ==> r.feedbackUrl.Some?
    ensures recording.transcriptUrl.Some? ==> r.transcriptUrl.Some?
    ensures r.id == recording.id && r.uploadStatus == recording.uploadStatus && r.speechId == recording.speechId
    ensures r.(transcriptionStatus := recording.transcriptionStatus, feedbackStatus := recording.feedbackStatus,
               transcriptUrl := recording.transcriptUrl, feedbackUrl := recording.feedbackUrl,
               feedbackErrorMessage := recording.feedbackErrorMessage,
               transcriptionErrorMessage := recording.transcriptionErrorMessage) == recording
  {
    recording.(
      transcriptionStatus := FromApi(status.transcriptionStatus),
      feedbackStatus := FromApi(status.feedbackStatus),
      transcriptUrl := if status.transcriptUrl.Some? then status.transcriptUrl else recording.transcriptUrl,
      feedbackUrl := if status.googleDocUrl.Some? then status.googleDocUrl else recording.feedbackUrl,
      feedbackErrorMessage := if status.feedbackError.Some? then status.feedbackError else recording.feedbackErrorMessage,
      transcriptionErrorMessage := if status.transcriptionError.Some? then status.transcriptionError else recording.transcriptionErrorMessage)
  }

  /** Applying the same response twice changes nothing more. */
  lemma ApplyStatusIdempotent(recording: SpeechRecording, status: SpeechStatusResponse)
    ensures ApplyStatus(ApplyStatus(recording, status), status) == ApplyStatus(recording, status)
  {
  }

  /** What the polling loop has done so far. */
  datatype PollOutcome = PollOutcome(latest: SpeechRecording, attempts: nat, applied: bool, error: Option<string>)

  /**
   * The poll from attempt `i` on: a failed fetch records its message and
   * goes on, a response is applied and ends the poll once the feedback
   * stage is complete or failed; at most 60 attempts in all.
   */
  function PollFrom(fetch: nat -> Result<SpeechStatusResponse>, i: nat, acc: PollOutcome): PollOutcome
    decreases MaxPollAttempts - i
  {
    if i >= MaxPollAttempts then acc
    else match fetch(i)
      case Failure(e) => PollFrom(fetch, i + 1, acc.(attempts := i + 1, error := Some(e)))
      case Success(status) =>
        var u := ApplyStatus(acc.latest, status);
        var next := acc.(latest := u, attempts := i + 1, applied := true);
        if IsTerminal(u.feedbackStatus) then next else PollFrom(fetch, i + 1, next)
  }

  /** One attempt of the poll, unfolded. */
  lemma PollFromUnfold(fetch: nat -> Result<SpeechStatusResponse>, i: nat, acc: PollOutcome)
    requires i < MaxPollAttempts
    ensures fetch(i).Failure? ==> PollFrom(fetch, i, acc) == PollFrom(fetch, i + 1, acc.(attempts := i + 1, error := Some(fetch(i).error)))
    ensures fetch(i).Success? ==>
      var u := ApplyStatus(acc.latest, fetch(i).value);
      var next := acc.(latest := u, attempts := i + 1, applied := true);
      PollFrom(fetch, i, acc) == if IsTerminal(u.feedbackStatus) then next else PollFrom(fetch, i + 1, next)
  {
  }

  /**
   * The poll makes at most 60 attempts, and stops early only on a terminal
   * feedback status; it never changes the recording's identity or upload status.
   */
  lemma {:induction false} PollBounds(fetch: nat -> Result<SpeechStatusResponse>, i: nat, acc: PollOutcome)
    requires acc.attempts == i <= MaxPollAttempts
    ensures var r := PollFrom(fetch, i, acc);
      && i <= r.attempts <= MaxPollAttempts
      && (r.attempts < MaxPollAttempts ==> r.applied && IsTerminal(r.latest.feedbackStatus))
      && r.latest.id == acc.latest.id && r.latest.uploadStatus == acc.latest.uploadStatus
      && r.latest.speechId == acc.latest.speechId
      && (acc.applied ==> r.applied)
      && (!r.applied ==> r.latest == acc.latest)
    decreases MaxPollAttempts - i
  {
    if i < MaxPollAttempts {
      match fetch(i)
      case Failure(e) =>
        PollBounds(fetch, i + 1, acc.(attempts := i + 1, error := Some(e)));
      case Success(status) =>
        var u := ApplyStatus(acc.latest, status);
        var next := acc.(latest := u, attempts := i + 1, applied := true);
        if !IsTerminal(u.feedbackStatus) {
          PollBounds(fetch, i + 1, next);
        }
    }
  }

  /** The first response with a complete or failed feedback stage ends the poll. */
  lemma PollStopsAtTerminal(fetch: nat -> Result<SpeechStatusResponse>, i: nat, acc: PollOutcome, status: SpeechStatusResponse)
    requires i < MaxPollAttempts && fetch(i) == Success(status) && IsTerminal(FromApi(status.feedbackStatus))
    ensures PollFrom(fetch, i, acc).attempts == i + 1
    ensures PollFrom(fetch, i, acc).latest == ApplyStatus(acc.latest, status)
  {
  }

  /** Where a recording is uploaded: the backend debate if linked, else the local session id. */
  function UploadTarget(session: DebateSession): (r: string)
    ensures session.backendDebateId.Some? ==> r == session.backendDebateId.value
    ensures session.backendDebateId.None? ==> r == session.id
  {
    session.backendDebateId.GetOr(session.id)
  }

  /** The metadata keys, in the order the upload form lists them. */
  const MetadataKeys := ["speaker_name", "speaker_position", "duration_seconds", "student_level", "content_type"]

  /** The metadata sent with an upload: the speaker, the duration, the level's lower-case name and the audio type. */
  function UploadMetadata(recording: SpeechRecording, session: DebateSession): (m: seq<(string, string)>)
    ensures |m| == |MetadataKeys| && forall i :: 0 <= i < |m| ==> m[i].0 == MetadataKeys[i]
    ensures m[0].1 == recording.speakerName && m[1].1 == recording.speakerPosition
    ensures m[3].1 == session.studentLevel.RawValue() && m[4].1 == "audio/m4a"
  {
    LowerNameIsRawValue(session.studentLevel);
    [("speaker_name", recording.speakerName), ("speaker_position", recording.speakerPosition),
     ("duration_seconds", IntToString(recording.durationSeconds)),
     ("student_level", Lower(session.studentLevel.Name())), ("content_type", "audio/m4a")]
  }

  datatype UploadRequest = UploadRequest(debateId: string, metadata: seq<(string, string)>)

  /** The copy written before the upload starts. */
  function UploadingCopy(recording: SpeechRecording): (r: SpeechRecording)
    ensures r.uploadStatus == UploadStatus.Uploading && r.AggregatedStatus() == ProcessingStatus.Processing
    ensures r.(uploadStatus := recording.uploadStatus, transcriptionStatus := recording.transcriptionStatus,
               feedbackStatus := recording.feedbackStatus) == recording
  {
    recording.(uploadStatus := UploadStatus.Uploading, transcriptionStatus := ProcessingStatus.Processing,
               feedbackStatus := ProcessingStatus.Pending)
  }

  /** The copy written once the backend accepted the audio. */
  function UploadedCopy(uploading: SpeechRecording, speechId: string): (r: SpeechRecording)
    ensures r.uploadStatus == UploadStatus.Uploaded && r.speechId == Some(speechId)
    ensures r.AggregatedStatus() == ProcessingStatus.Processing
    ensures r.id == uploading.id && r.debateSessionId == uploading.debateSessionId
  {
    uploading.(uploadStatus := UploadStatus.Uploaded, speechId := Some(speechId),
               feedbackStatus := ProcessingStatus.Processing, transcriptionStatus := ProcessingStatus.Processing)
  }

  /** The recording `stopRecording` stores for the current speaker. */
  function FinishedRecording(id: string, speaker: SpeakerDisplay, filePath: string, durationSeconds: int,
                             now: int, sessionId: string): (r: SpeechRecording)
    ensures r.speakerName == speaker.speakerName && r.speakerPosition == speaker.position
    ensures r.studentId == speaker.studentId && r.debateSessionId == sessionId
    ensures r.uploadStatus == UploadStatus.Pending && r.AggregatedStatus() == ProcessingStatus.Pending
  {
    NewRecording(id, speaker.speakerName, speaker.position, filePath, durationSeconds, now, sessionId).(studentId := speaker.studentId)
  }

  /** `currentSpeaker`: `getOrNull` at the current index. */
  function CurrentSpeaker(s: TimerUiState): (r: Option<SpeakerDisplay>)
    ensures r.Some? <==> 0 <= s.currentSpeakerIndex < |s.speakers|
    ensures r.Some? ==> r.value == s.speakers[s.currentSpeakerIndex]
  {
    if 0 <= s.currentSpeakerIndex < |s.speakers| then Some(s.speakers[s.currentSpeakerIndex]) else None
  }

  /** `(i - 1).coerceAtLeast(0)`. */
  function PreviousIndex(i: int): (r: int)
    ensures r >= 0 && (i >= 1 ==> r == i - 1) && (i < 1 ==> r == 0)
  {
    if i - 1 < 0 then 0 else i - 1
  }

  /** `(i + 1).coerceAtMost(lastIndex)`: with no speakers this is -1. */
  function NextIndex(i: int, count: nat): (r: int)
    ensures r <= count - 1 && (i + 1 <= count - 1 ==> r == i + 1) && (i + 1 > count - 1 ==> r == count - 1)
  {
    if i + 1 > count - 1 then count - 1 else i + 1
  }

  /** Within a non-empty speaker list both buttons keep the index in range, and each undoes the other away from the ends. */
  lemma NavigationStaysInRange(i: int, count: nat)
    requires 0 <= i < count
    ensures 0 <= PreviousIndex(i) < count && 0 <= NextIndex(i, count) < count
    ensures i + 1 < count ==> PreviousIndex(NextIndex(i, count)) == i
    ensures i > 0 ==> NextIndex(PreviousIndex(i), count) == i
  {
  }

  /** Pressing next on an empty speaker list leaves no current speaker. */
  lemma NextOnEmptyList(i: int)
    requires i >= 0
    ensures NextIndex(i, 0) == -1
  {
  }

  /** The store's recordings after `updateRecording(r)`. */
  function Updated(rows: map<string, RecordingRow>, r: SpeechRecording): (m: map<string, RecordingRow>)
    ensures r.id in rows ==> m == rows[r.id := EncodeRecording(r)]
    ensures r.id !in rows ==> m == rows
  {
    if r.id in rows then rows[r.id := EncodeRecording(r)] else rows
  }

  /** A second update of the same recording overrides the first. */
  lemma UpdatedTwice(rows: map<string, RecordingRow>, a: SpeechRecording, b: SpeechRecording)
    requires a.id == b.id
    ensures Updated(Updated(rows, a), b) == Updated(rows, b)
  {
  }

  class TimerViewModel {
    const sessionId: string
    const dao: DebateFeedbackDao
    var state: TimerUiState
    var timer: AndroidTimerService.TimerService?

    ghost predicate Valid()
      reads this, timer
    {
      timer != null ==> timer.Valid()
    }

    constructor(sessionId: string, dao: DebateFeedbackDao)
      ensures Valid() && this.sessionId == sessionId && this.dao == dao
      ensures state == InitialState && timer == null
    {
      this.sessionId := sessionId;
      this.dao := dao;
      state := InitialState;
      timer := null;
    }

    /**
     * `loadSession` with the repository's answers for this session passed
     * in: a missing session ends loading with an error; otherwise a timer
     * for the session's speech time is created and the speakers are built.
     */
    method LoadSession(session: Option<DebateSession>, students: seq<Student>)
      requires Valid()
      modifies this
      ensures Valid()
      ensures session.None? ==> state == old(state).(isLoading := false, errorMessage := Some(SessionNotFound)) && timer == old(timer)
      ensures session.Some? ==> timer != null && fresh(timer) && timer.speechDurationSeconds == session.value.speechTimeSeconds
      ensures session.Some? ==> timer.state == AndroidTimerService.Idle && timer.elapsedMillis == 0
      ensures session.Some? ==> state == old(state).(session := session, students := students,
        speakers := BuildSpeakers(session.value, students), isLoading := false)
    {
      if session.None? {
        state := state.(isLoading := false, errorMessage := Some(SessionNotFound));
        return;
      }
      timer := new AndroidTimerService.TimerService(session.value.speechTimeSeconds);
      state := state.(session := session, students := students,
        speakers := BuildSpeakers(session.value, students), isLoading := false);
    }

    /** The recordings flow: every emission replaces the shown list. */
    method ObserveRecordings(recordings: seq<SpeechRecording>)
      modifies this
      ensures state == old(state).(recordings := recordings) && timer == old(timer)
    {
      state := state.(recordings := recordings);
    }

    /**
     * One tick of the timer as the screen sees it: the elapsed time is
     * mirrored, and each bell sets the last bell count and its time, so
     * after several bells the last one shows.
     */
    method OnTick(now: int) returns (dings: seq<int>)
      requires Valid()
      modifies this, timer
      ensures Valid() && timer == old(timer)
      ensures timer == null ==> dings == [] && state == old(state)
      ensures timer != null ==> state.elapsedMillis == timer.elapsedMillis
      ensures timer != null && dings != [] ==> state.lastBellCount == Some(dings[|dings| - 1]) && state.bellTimestamp == Some(now)
      ensures timer != null && dings == [] ==> state.lastBellCount == old(state.lastBellCount) && state.bellTimestamp == old(state.bellTimestamp)
      ensures timer != null ==> state.(elapsedMillis := old(state.elapsedMillis), lastBellCount := old(state.lastBellCount),
        bellTimestamp := old(state.bellTimestamp)) == old(state)
    {
      if timer == null {
        return [];
      }
      dings := timer.Tick(now);
      state := state.(elapsedMillis := timer.elapsedMillis);
      if dings != [] {
        state := state.(lastBellCount := Some(dings[|dings| - 1]), bellTimestamp := Some(now));
      }
    }

    /**
     * `startRecording` with the audio service's outcome (the file, or the
     * failure's message): ignored without a session, a current speaker or a
     * timer, or while recording; on success the timer restarts from zero.
     */
    method StartRecording(audio: Result<string>, now: int)
      requires Valid()
      modifies this, timer
      ensures Valid() && timer == old(timer)
      ensures (old(state).session.None? || CurrentSpeaker(old(state)).None? || old(state).isRecording || timer == null)
        ==> state == old(state)
      ensures old(state).session.Some? && CurrentSpeaker(old(state)).Some? && !old(state).isRecording && timer != null ==>
        if audio.Success? then
          && state == old(state).(isRecording := true, activeRecordingFile := Some(audio.value))
          && timer.state == AndroidTimerService.Running && timer.elapsedMillis == 0 && timer.firedBells == {}
          && timer.startTimeMillis == Some(now)
        else state == old(state).(errorMessage := Some(audio.error))
    {
      if state.session.None? || CurrentSpeaker(state).None? || state.isRecording || timer == null {
        return;
      }
      match audio
      case Success(file) =>
        timer.Reset();
        timer.Start(now);
        state := state.(isRecording := true, activeRecordingFile := Some(file));
      case Failure(e) =>
        state := state.(errorMessage := Some(e));
    }

    /**
     * `stopRecording` with the audio service's result (file path and
     * duration, or none): the timer stops; with a file, the recording for
     * the current speaker is stored, the next speaker is selected and the
     * timer reset. The stored recording is returned for the upload.
     */
    method StopRecording(audio: Option<(string, int)>, recordingId: string, now: int) returns (stored: Option<SpeechRecording>)
      requires Valid() && dao.db.Valid()
      modifies this, timer, dao.db
      ensures Valid() && dao.db.Valid() && timer == old(timer)
      ensures (!old(state).isRecording || old(state).session.None? || CurrentSpeaker(old(state)).None? || timer == null)
        ==> state == old(state) && stored.None? && dao.db.recordings == old(dao.db.recordings)
      ensures dao.db.sessions == old(dao.db.sessions) && dao.db.students == old(dao.db.students)
      ensures old(state).isRecording && old(state).session.Some? && CurrentSpeaker(old(state)).Some? && timer != null && audio.None? ==>
        && state == old(state).(isRecording := false, activeRecordingFile := None) && stored.None?
        && timer.state == AndroidTimerService.Stopped && dao.db.recordings == old(dao.db.recordings)
      ensures old(state).isRecording && old(state).session.Some? && CurrentSpeaker(old(state)).Some? && timer != null && audio.Some? ==>
        && stored == Some(FinishedRecording(recordingId, CurrentSpeaker(old(state)).value, audio.value.0, audio.value.1, now, old(state).session.value.id))
        && dao.db.recordings == old(dao.db.recordings)[recordingId := EncodeRecording(stored.value)]
        && state == old(state).(isRecording := false, activeRecordingFile := None,
             currentSpeakerIndex := if old(state).currentSpeakerIndex < |old(state).speakers| - 1 then old(state).currentSpeakerIndex + 1 else old(state).currentSpeakerIndex)
        && timer.state == AndroidTimerService.Idle && timer.elapsedMillis == 0
    {
      stored := None;
      if !state.isRecording || state.session.None? || CurrentSpeaker(state).None? || timer == null {
        return;
      }
      var speaker := CurrentSpeaker(state).value;
      timer.Stop();
      if audio.None? {
        state := state.(isRecording := false, activeRecordingFile := None);
        return;
      }
      var recording := FinishedRecording(recordingId, speaker, audio.value.0, audio.value.1, now, state.session.value.id);
      dao.UpsertRecording(recording);
      state := state.(isRecording := false, activeRecordingFile := None);
      AdvanceSpeaker();
      stored := Some(recording);
    }

    /** `cancelRecording`: the timer is reset and recording ends, whatever the state. */
    method CancelRecording()
      requires Valid()
      modifies this, timer
      ensures Valid() && timer == old(timer)
      ensures state == old(state).(isRecording := false, activeRecordingFile := None)
      ensures timer != null ==> timer.state == AndroidTimerService.Idle && timer.elapsedMillis == 0
    {
      if timer != null {
        timer.Reset();
      }
      state := state.(isRecording := false, activeRecordingFile := None);
    }

    /** `previousSpeaker`: ignored while recording; the index never drops below 0 and the timer is reset. */
    method PreviousSpeaker()
      requires Valid()
      modifies this, timer
      ensures Valid() && timer == old(timer)
      ensures old(state).isRecording ==> state == old(state)
      ensures !old(state).isRecording ==> state == old(state).(currentSpeakerIndex := PreviousIndex(old(state).currentSpeakerIndex))
      ensures !old(state).isRecording && timer != null ==> timer.state == AndroidTimerService.Idle && timer.elapsedMillis == 0
    {
      if state.isRecording {
        return;
      }
      state := state.(currentSpeakerIndex := PreviousIndex(state.currentSpeakerIndex));
      if timer != null {
        timer.Reset();
      }
    }

    /** `nextSpeaker`: ignored while recording; the index never passes the last speaker and the timer is reset. */
    method NextSpeaker()
      requires Valid()
      modifies this, timer
      ensures Valid() && timer == old(timer)
      ensures old(state).isRecording ==> state == old(state)
      ensures !old(state).isRecording ==> state == old(state).(currentSpeakerIndex := NextIndex(old(state).currentSpeakerIndex, |old(state).speakers|))
      ensures !old(state).isRecording && timer != null ==> timer.state == AndroidTimerService.Idle && timer.elapsedMillis == 0
    {
      if state.isRecording {
        return;
      }
      state := state.(currentSpeakerIndex := NextIndex(state.currentSpeakerIndex, |state.speakers|));
      if timer != null {
        timer.Reset();
      }
    }

    /** `advanceSpeaker`: moves on unless at the last speaker; the timer is reset either way. */
    method AdvanceSpeaker()
      requires Valid()
      modifies this, timer
      ensures Valid() && timer == old(timer)
      ensures state == old(state).(currentSpeakerIndex :=
        if old(state).currentSpeakerIndex < |old(state).speakers| - 1 then old(state).currentSpeakerIndex + 1 else old(state).currentSpeakerIndex)
      ensures timer != null ==> timer.state == AndroidTimerService.Idle && timer.elapsedMillis == 0
    {
      var current := state.currentSpeakerIndex;
      if current < |state.speakers| - 1 {
        state := state.(currentSpeakerIndex := current + 1);
      }
      if timer != null {
        timer.Reset();
      }
    }

    method DismissError()
      modifies this
      ensures state == old(state).(errorMessage := None) && timer == old(timer)
    {
      state := state.(errorMessage := None);
    }

    /**
     * `uploadRecording` with the transport's outcome (the speech id, or the
     * failure's message) and the progress values it reported: nothing
     * happens without a session; otherwise the uploading copy is written,
     * progress starts at 0, and the recording ends Uploaded (returned for
     * polling) or Failed, the failed copy being built from the recording as
     * it was before the upload.
     */
    method UploadRecording(recording: SpeechRecording, outcome: Result<string>, progress: seq<real>)
      returns (request: Option<UploadRequest>, uploaded: Option<SpeechRecording>)
      requires dao.db.Valid()
      modifies this, dao.db
      ensures dao.db.Valid() && timer == old(timer)
      ensures dao.db.sessions == old(dao.db.sessions) && dao.db.students == old(dao.db.students)
      ensures old(state).session.None? ==> state == old(state) && request.None? && uploaded.None? && dao.db.recordings == old(dao.db.recordings)
      ensures old(state).session.Some? ==> var s := old(state).session.value;
        request == Some(UploadRequest(UploadTarget(s), UploadMetadata(recording, s)))
      ensures old(state).session.Some? ==>
        state.uploadProgress == old(state).uploadProgress[recording.id := if progress == [] then 0.0 else progress[|progress| - 1]]
      ensures old(state).session.Some? && outcome.Success? ==>
        && uploaded == Some(UploadedCopy(UploadingCopy(recording), outcome.value))
        && dao.db.recordings == Updated(Updated(old(dao.db.recordings), UploadingCopy(recording)), uploaded.value)
        && state == old(state).(uploadProgress := state.uploadProgress)
      ensures old(state).session.Some? && outcome.Failure? ==>
        && uploaded.None?
        && dao.db.recordings == Updated(Updated(old(dao.db.recordings), UploadingCopy(recording)), recording.(uploadStatus := UploadStatus.Failed))
        && state == old(state).(uploadProgress := state.uploadProgress, errorMessage := Some(outcome.error))
    {
      request := None;
      uploaded := None;
      if state.session.None? {
        return;
      }
      var session := state.session.value;
      request := Some(UploadRequest(UploadTarget(session), UploadMetadata(recording, session)));
      var uploading := UploadingCopy(recording);
      dao.UpdateRecording(uploading);
      ReportProgress(recording.id, progress);
      match outcome
      case Success(speechId) =>
        var updated := UploadedCopy(uploading, speechId);
        dao.UpdateRecording(updated);
        uploaded := Some(updated);
      case Failure(e) =>
        dao.UpdateRecording(recording.(uploadStatus := UploadStatus.Failed));
        state := state.(errorMessage := Some(e));
    }

    /** The progress map: 0 when the upload starts, then each value the transport reports. */
    method ReportProgress(id: string, progress: seq<real>)
      modifies this
      ensures timer == old(timer)
      ensures state == old(state).(uploadProgress := old(state).uploadProgress[id := if progress == [] then 0.0 else progress[|progress| - 1]])
    {
      state := state.(uploadProgress := state.uploadProgress[id := 0.0]);
      for k := 0 to |progress|
        invariant timer == old(timer)
        invariant state == old(state).(uploadProgress := old(state).uploadProgress[id := if k == 0 then 0.0 else progress[k - 1]])
      {
        state := state.(uploadProgress := state.uploadProgress[id := progress[k]]);
      }
    }

    /**
     * `pollSpeechStatus` with the endpoint's answer for each attempt: a
     * recording without a speech id is not polled; otherwise each response
     * is applied and stored until the feedback stage finishes or 60 attempts
     * are spent, and a failed fetch shows its message and is retried.
     */
    method PollSpeechStatus(recording: SpeechRecording, fetch: nat -> Result<SpeechStatusResponse>)
      returns (latest: SpeechRecording, attempts: nat)
      requires dao.db.Valid()
      modifies this`state, dao.db
      ensures dao.db.Valid() && timer == old(timer)
      ensures dao.db.sessions == old(dao.db.sessions) && dao.db.students == old(dao.db.students)
      ensures recording.speechId.None? ==> latest == recording && attempts == 0
      ensures recording.speechId.None? ==> state == old(state) && dao.db.recordings == old(dao.db.recordings)
      ensures recording.speechId.Some? ==> var r := PollFrom(fetch, 0, PollOutcome(recording, 0, false, None));
        && latest == r.latest && attempts == r.attempts
        && state == old(state).(errorMessage := if r.error.Some? then r.error else old(state).errorMessage)
        && dao.db.recordings == (if r.applied then Updated(old(dao.db.recordings), r.latest) else old(dao.db.recordings))
    {
      latest := recording;
      attempts := 0;
      if recording.speechId.None? {
        return;
      }
      latest, attempts := PollLoop(recording, fetch);
    }

    /** The attempts of `pollSpeechStatus`, run against `PollFrom`. */
    method PollLoop(recording: SpeechRecording, fetch: nat -> Result<SpeechStatusResponse>)
      returns (latest: SpeechRecording, attempts: nat)
      requires dao.db.Valid()
      modifies this`state, dao.db
      ensures dao.db.Valid()
      ensures dao.db.sessions == old(dao.db.sessions) && dao.db.students == old(dao.db.students)
      ensures var r := PollFrom(fetch, 0, PollOutcome(recording, 0, false, None));
        && latest == r.latest && attempts == r.attempts
        && state == old(state).(errorMessage := if r.error.Some? then r.error else old(state).errorMessage)
        && dao.db.recordings == (if r.applied then Updated(old(dao.db.recordings), r.latest) else old(dao.db.recordings))
    {
      latest := recording;
      attempts := 0;
      var applied := false;
      var error: Option<string> := None;
      var done := false;
      ghost var base, state0 := dao.db.recordings, state;
      ghost var sessions0, students0 := dao.db.sessions, dao.db.students;
      ghost var goal := PollFrom(fetch, 0, PollOutcome(recording, 0, false, None));
      while attempts < MaxPollAttempts && !done
        invariant attempts <= MaxPollAttempts
        invariant latest.id == recording.id
        invariant dao.db.Valid() && dao.db.sessions == sessions0 && dao.db.students == students0
        invariant dao.db.recordings == (if applied then Updated(base, latest) else base)
        invariant state == state0.(errorMessage := if error.Some? then error else state0.errorMessage)
        invariant goal == (if done then PollOutcome(latest, attempts, applied, error) else PollFrom(fetch, attempts, PollOutcome(latest, attempts, applied, error)))
        decreases MaxPollAttempts - attempts
      {
        latest, applied, error, done := PollAttempt(fetch, attempts, latest, applied, error, base, state0);
        attempts := attempts + 1;
      }
    }

    /** One turn of the poll loop, with the accumulated outcome carried as loop variables. */
    method PollAttempt(fetch: nat -> Result<SpeechStatusResponse>, attempts: nat, latest: SpeechRecording, applied: bool,
                       error: Option<string>, ghost base: map<string, RecordingRow>, ghost state0: TimerUiState)
      returns (latest': SpeechRecording, applied': bool, error': Option<string>, done: bool)
      requires attempts < MaxPollAttempts
      requires dao.db.Valid() && dao.db.recordings == (if applied then Updated(base, latest) else base)
      requires state == state0.(errorMessage := if error.Some? then error else state0.errorMessage)
      modifies this`state, dao.db
      ensures dao.db.Valid() && dao.db.sessions == old(dao.db.sessions) && dao.db.students == old(dao.db.students)
      ensures dao.db.recordings == (if applied' then Updated(base, latest') else base)
      ensures state == state0.(errorMessage := if error'.Some? then error' else state0.errorMessage)
      ensures latest'.id == latest.id
      ensures PollFrom(fetch, attempts, PollOutcome(latest, attempts, applied, error)) ==
        (if done then PollOutcome(latest', attempts + 1, applied', error')
         else PollFrom(fetch, attempts + 1, PollOutcome(latest', attempts + 1, applied', error')))
    {
      var outcome := fetch(attempts);
      PollFromUnfold(fetch, attempts, PollOutcome(latest, attempts, applied, error));
      latest', done := PollStep(latest, outcome);
      applied', error' := applied, error;
      if outcome.Failure? {
        error' := Some(outcome.error);
      } else {
        UpdatedTwice(base, latest, latest');
        applied' := true;
      }
    }

    /** One attempt: a failed fetch shows its message; a response is applied and stored. */
    method PollStep(latest: SpeechRecording, outcome: Result<SpeechStatusResponse>) returns (next: SpeechRecording, done: bool)
      requires dao.db.Valid()
      modifies this`state, dao.db
      ensures dao.db.Valid() && timer == old(timer)
      ensures dao.db.sessions == old(dao.db.sessions) && dao.db.students == old(dao.db.students)
      ensures outcome.Failure? ==> next == latest && !done
      ensures outcome.Failure? ==> state == old(state).(errorMessage := Some(outcome.error)) && dao.db.recordings == old(dao.db.recordings)
      ensures outcome.Success? ==> next == ApplyStatus(latest, outcome.value) && done == IsTerminal(next.feedbackStatus)
      ensures outcome.Success? ==> state == old(state) && dao.db.recordings == Updated(old(dao.db.recordings), next)
    {
      match outcome
      case Failure(e) =>
        state := state.(errorMessage := Some(e));
        next, done := latest, false;
      case Success(status) =>
        next := ApplyStatus(latest, status);
        dao.UpdateRecording(next);
        done := IsTerminal(next.feedbackStatus);
    }
  }
}
