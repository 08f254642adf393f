/**
 * The Android entities stored by Room (teachers, students, debate sessions,
 * speech recordings) and the team composition shared with iOS. Times are
 * epoch milliseconds as integers; `uploadProgress` stays an opaque real.
 */
module Models {
  import opened Wrappers
  import opened Statuses
  import opened Formats

  /** Student ids per team; a list may be absent. */
  datatype TeamComposition = TeamComposition(
    prop: Option<seq<string>>, opp: Option<seq<string>>,
    og: Option<seq<string>>, oo: Option<seq<string>>,
    cg: Option<seq<string>>, co: Option<seq<string>>)

  datatype Teacher = Teacher(
    id: string, name: string, deviceId: string, authToken: Option<string>,
    isAdmin: bool, createdAt: int)

  datatype Student = Student(
    id: string, name: string, level: StudentLevel, createdAt: int, sessionId: Option<string>)

  datatype DebateSession = DebateSession(
    id: string, motion: string, format: DebateFormat, studentLevel: StudentLevel,
    speechTimeSeconds: int, replyTimeSeconds: Option<int>, createdAt: int,
    isGuestMode: bool, teacherId: Option<string>, classId: Option<string>,
    scheduleId: Option<string>, backendDebateId: Option<string>,
    teamComposition: Option<TeamComposition>)

  datatype SpeechRecording = SpeechRecording(
    id: string, speakerName: string, speakerPosition: string, studentId: Option<string>,
    localFilePath: string, durationSeconds: int, recordedAt: int,
    uploadStatus: UploadStatus, processingStatus: ProcessingStatus,
    transcriptionStatus: ProcessingStatus, feedbackStatus: ProcessingStatus,
    feedbackUrl: Option<string>, speechId: Option<string>, feedbackContent: Option<string>,
    transcriptUrl: Option<string>, transcriptText: Option<string>,
    transcriptionErrorMessage: Option<string>, feedbackErrorMessage: Option<string>,
    uploadProgress: real, debateSessionId: string)
  {
    /** `aggregatedStatus`: derived from the feedback and transcription stages only. */
    function AggregatedStatus(): (r: ProcessingStatus)
      ensures r == Aggregate(feedbackStatus, transcriptionStatus)
      ensures r == ProcessingStatus.Failed <==> (feedbackStatus == ProcessingStatus.Failed || transcriptionStatus == ProcessingStatus.Failed)
    {
      Aggregate(feedbackStatus, transcriptionStatus)
    }
  }

  /** `Teacher(...)` with the declared defaults; id and clock are inputs. */
  function NewTeacher(id: string, name: string, deviceId: string, now: int): (t: Teacher)
    ensures t.authToken.None? && !t.isAdmin && t.createdAt == now
    ensures t.id == id && t.name == name && t.deviceId == deviceId
  {
    Teacher(id, name, deviceId, None, false, now)
  }

  /** `Student(...)` with the declared defaults. */
  function NewStudent(id: string, name: string, level: StudentLevel, now: int): (s: Student)
    ensures s.sessionId.None? && s.createdAt == now && s.id == id && s.name == name && s.level == level
  {
    Student(id, name, level, now, None)
  }

  /** `DebateSession(...)` with the declared defaults. */
  function NewSession(id: string, motion: string, format: DebateFormat, level: StudentLevel,
                      speechTime: int, now: int): (s: DebateSession)
    ensures !s.isGuestMode && s.replyTimeSeconds.None? && s.teacherId.None? && s.classId.None?
    ensures s.scheduleId.None? && s.backendDebateId.None? && s.teamComposition.None?
    ensures s.id == id && s.motion == motion && s.format == format && s.studentLevel == level
    ensures s.speechTimeSeconds == speechTime && s.createdAt == now
  {
    DebateSession(id, motion, format, level, speechTime, None, now, false, None, None, None, None, None)
  }

  /** `SpeechRecording(...)` with the declared defaults: every status pending, no artefacts, no progress. */
  function NewRecording(id: string, speakerName: string, speakerPosition: string, localFilePath: string,
                        durationSeconds: int, now: int, debateSessionId: string): (r: SpeechRecording)
    ensures r.uploadStatus == UploadStatus.Pending && r.processingStatus == ProcessingStatus.Pending
    ensures r.transcriptionStatus == ProcessingStatus.Pending && r.feedbackStatus == ProcessingStatus.Pending
    ensures r.studentId.None? && r.feedbackUrl.None? && r.speechId.None? && r.feedbackContent.None?
    ensures r.transcriptUrl.None? && r.transcriptText.None?
    ensures r.transcriptionErrorMessage.None? && r.feedbackErrorMessage.None?
    ensures r.uploadProgress == 0.0 && r.recordedAt == now
    ensures r.id == id && r.debateSessionId == debateSessionId && r.durationSeconds == durationSeconds
    ensures r.AggregatedStatus() == ProcessingStatus.Pending
  {
    SpeechRecording(id, speakerName, speakerPosition, None, localFilePath, durationSeconds, now,
      UploadStatus.Pending, ProcessingStatus.Pending, ProcessingStatus.Pending, ProcessingStatus.Pending,
      None, None, None, None, None, None, None, 0.0, debateSessionId)
  }

  /** The aggregate ignores the upload status and the stored overall status. */
  lemma AggregatedStatusIgnoresUpload(r: SpeechRecording, u: UploadStatus, p: ProcessingStatus)
    ensures r.(uploadStatus := u, processingStatus := p).AggregatedStatus() == r.AggregatedStatus()
  {
  }
}
