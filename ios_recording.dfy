/**
 * The iOS `SpeechRecording`: a SwiftData object whose status fields the
 * timer screen updates in place while a speech is uploaded, transcribed and
 * given feedback. The fields that change after creation are gathered by
 * `Stages()` so that each update can be stated as a function of the old
 * stages.
 */
module IosRecording {
  import opened Wrappers
  import opened Statuses

  /** The fields of a recording that change after it is created. */
  datatype RecordingStages = RecordingStages(
    uploadStatus: UploadStatus, processingStatus: ProcessingStatus,
    transcriptionStatus: ProcessingStatus, feedbackStatus: ProcessingStatus,
    speechId: Option<string>, feedbackUrl: Option<string>,
    transcriptUrl: Option<string>, transcriptText: Option<string>,
    transcriptionErrorMessage: Option<string>, feedbackErrorMessage: Option<string>)

  /** The stages of a new recording: every status pending, no artefact. */
  const InitialStages := RecordingStages(
    UploadStatus.Pending, ProcessingStatus.Pending, ProcessingStatus.Pending, ProcessingStatus.Pending,
    None, None, None, None, None, None)

  /** `updateAggregatedStatus` on the stages: the overall status becomes the aggregate; nothing else changes. */
  function WithAggregate(s: RecordingStages): (r: RecordingStages)
    ensures r.processingStatus == Aggregate(s.feedbackStatus, s.transcriptionStatus)
    ensures r.(processingStatus := s.processingStatus) == s
  {
    s.(processingStatus := Aggregate(s.feedbackStatus, s.transcriptionStatus))
  }

  /**
   * `failureDetails`: a failed transcription explains itself first (its
   * message, else "Transcription failed"), then a failed feedback stage
   * (its message, else "Feedback generation failed"); otherwise nothing.
   */
  function FailureDetails(s: RecordingStages): (r: Option<string>)
  {
    if s.transcriptionStatus == ProcessingStatus.Failed then Some(s.transcriptionErrorMessage.GetOr("Transcription failed"))
    else if s.feedbackStatus == ProcessingStatus.Failed then Some(s.feedbackErrorMessage.GetOr("Feedback generation failed"))
    else None
  }

  /**
   * There are failure details exactly when the aggregate status is failed,
   * and they are the transcription's whenever transcription failed.
   */
  lemma FailureDetailsIffFailed(s: RecordingStages)
    ensures FailureDetails(s).Some? <==> Aggregate(s.feedbackStatus, s.transcriptionStatus) == ProcessingStatus.Failed
    ensures s.transcriptionStatus == ProcessingStatus.Failed && s.transcriptionErrorMessage.Some? ==>
      FailureDetails(s) == s.transcriptionErrorMessage
    ensures s.transcriptionStatus != ProcessingStatus.Failed && s.feedbackStatus == ProcessingStatus.Failed ==>
      FailureDetails(s) == Some(s.feedbackErrorMessage.GetOr("Feedback generation failed"))
  {
  }

  class IosSpeechRecording {
    const id: string
    const speakerName: string
    const speakerPosition: string
    const localFilePath: string
    const durationSeconds: int
    const recordedAt: int
    const debateSessionId: Option<string>
    var uploadStatus: UploadStatus
    var processingStatus: ProcessingStatus
    var transcriptionStatus: ProcessingStatus
    var feedbackStatus: ProcessingStatus
    var feedbackUrl: Option<string>
    var speechId: Option<string>
    var feedbackContent: Option<string>
    var transcriptUrl: Option<string>
    var transcriptText: Option<string>
    var transcriptionErrorMessage: Option<string>
    var feedbackErrorMessage: Option<string>
    var uploadProgress: real

    /** `init`: every status pending, no progress, no artefact; the id and clock are inputs. */
    constructor(id: string, speakerName: string, speakerPosition: string, localFilePath: string,
                durationSeconds: int, now: int, debateSessionId: Option<string>)
      ensures Stages() == InitialStages && uploadProgress == 0.0 && feedbackContent.None?
      ensures this.id == id && this.speakerName == speakerName && this.speakerPosition == speakerPosition
      ensures this.localFilePath == localFilePath && this.durationSeconds == durationSeconds
      ensures recordedAt == now && this.debateSessionId == debateSessionId
    {
      this.id := id;
      this.speakerName := speakerName;
      this.speakerPosition := speakerPosition;
      this.localFilePath := localFilePath;
      this.durationSeconds := durationSeconds;
      this.recordedAt := now;
      this.debateSessionId := debateSessionId;
      uploadStatus := UploadStatus.Pending;
      processingStatus := ProcessingStatus.Pending;
      transcriptionStatus := ProcessingStatus.Pending;
      feedbackStatus := ProcessingStatus.Pending;
      feedbackUrl := None;
      speechId := None;
      feedbackContent := None;
      transcriptUrl := None;
      transcriptText := None;
      transcriptionErrorMessage := None;
      feedbackErrorMessage := None;
      uploadProgress := 0.0;
    }

    function Stages(): RecordingStages
      reads this
    {
      RecordingStages(uploadStatus, processingStatus, transcriptionStatus, feedbackStatus,
        speechId, feedbackUrl, transcriptUrl, transcriptText,
        transcriptionErrorMessage, feedbackErrorMessage)
    }

    /** `aggregatedProcessingStatus`: the shared aggregate of the feedback and transcription stages. */
    function AggregatedProcessingStatus(): (r: ProcessingStatus)
      reads this
      ensures r == ProcessingStatus.Failed <==> (feedbackStatus == ProcessingStatus.Failed || transcriptionStatus == ProcessingStatus.Failed)
      ensures r == ProcessingStatus.Complete <==> (r != ProcessingStatus.Failed && feedbackStatus == ProcessingStatus.Complete)
    {
      Aggregate(feedbackStatus, transcriptionStatus)
    }

    /** `updateAggregatedStatus`: only the overall status changes, to the aggregate. */
    method UpdateAggregatedStatus()
      modifies this
      ensures Stages() == WithAggregate(old(Stages()))
      ensures uploadProgress == old(uploadProgress) && feedbackContent == old(feedbackContent)
    {
      processingStatus := AggregatedProcessingStatus();
    }

    /** `failureDetails` of this recording. */
    function Failure(): (r: Option<string>)
      reads this
      ensures r.Some? <==> AggregatedProcessingStatus() == ProcessingStatus.Failed
    {
      FailureDetailsIffFailed(Stages());
      FailureDetails(Stages())
    }
  }

  /** A new recording's aggregate is pending, and it has no failure to explain. */
  lemma InitialStagesArePending()
    ensures WithAggregate(InitialStages) == InitialStages
    ensures FailureDetails(InitialStages).None?
  {
  }
}
