/**
 * The status model of a speech recording, identical on Android and iOS:
 * the upload status, the three processing statuses (overall, transcription,
 * feedback), parsing of the backend's status strings, and the aggregated
 * status derived from the transcription and feedback stages.
 */
module Statuses {
  import opened Wrappers
  import opened Text

  datatype UploadStatus = Pending | Uploading | Uploaded | Failed
  {
    /** The Kotlin enum constant's `name`. */
    function Name(): string
    {
      match this
      case Pending => "PENDING"
      case Uploading => "UPLOADING"
      case Uploaded => "UPLOADED"
      case Failed => "FAILED"
    }

    /** Swift `UploadStatus.isComplete`: only an uploaded file counts as complete. */
    predicate IsComplete() { this == Uploaded }
  }

  datatype ProcessingStatus = Pending | Processing | Complete | Failed
  {
    /** The Kotlin enum constant's `name`. */
    function Name(): string
    {
      match this
      case Pending => "PENDING"
      case Processing => "PROCESSING"
      case Complete => "COMPLETE"
      case Failed => "FAILED"
    }

    /** `ProcessingStatus.isComplete` on both platforms. */
    predicate IsComplete() { this == Complete }

    /** The Swift raw value, which is also the canonical status word of the backend. */
    function RawValue(): string
    {
      match this
      case Pending => "pending"
      case Processing => "processing"
      case Complete => "complete"
      case Failed => "failed"
    }
  }

  const ProcessingWords: set<string> := {"processing", "running", "in_progress"}
  const CompleteWords: set<string> := {"complete", "completed", "done"}
  const FailedWords: set<string> := {"failed", "error"}

  /**
   * Kotlin `ProcessingStatus.fromApi` and Swift `ProcessingStatus(apiStatus:)`:
   * the lower-cased backend word selects the status; nil or any other word is
   * pending.
   */
  function FromApi(status: Option<string>): (r: ProcessingStatus)
    ensures status.None? ==> r == ProcessingStatus.Pending
    ensures status.Some? ==> (r == ProcessingStatus.Processing <==> Lower(status.value) in ProcessingWords)
    ensures status.Some? ==> (r == ProcessingStatus.Complete <==> Lower(status.value) in CompleteWords)
    ensures status.Some? ==> (r == ProcessingStatus.Failed <==> Lower(status.value) in FailedWords)
  {
    match status
    case None => ProcessingStatus.Pending
    case Some(s) =>
      var w := Lower(s);
      if w in ProcessingWords then ProcessingStatus.Processing
      else if w in CompleteWords then ProcessingStatus.Complete
      else if w in FailedWords then ProcessingStatus.Failed
      else ProcessingStatus.Pending
  }

  /** Matching ignores case: the word and its lower-case form parse alike. */
  lemma FromApiIgnoresCase(s: string)
    ensures FromApi(Some(s)) == FromApi(Some(Lower(s)))
    ensures FromApi(Some(s)) == FromApi(Some(Upper(s)))
  {
    LowerIdempotent(s);
    LowerOfUpper(s);
  }

  /** Every status survives a trip through its own backend word, in any case. */
  lemma FromApiOfRawValue(p: ProcessingStatus)
    ensures FromApi(Some(p.RawValue())) == p
    ensures FromApi(Some(Upper(p.RawValue()))) == p
  {
    var w := p.RawValue();
    assert Lower(w) == w by {
      LowerOfLowercase(w);
    }
    assert FromApi(Some(Upper(w))) == FromApi(Some(w)) by {
      FromApiIgnoresCase(w);
    }
    if p == ProcessingStatus.Pending {
      PendingIsNoStatusWord();
    }
  }

  /** "pending" is none of the backend's status words. */
  lemma PendingIsNoStatusWord()
    ensures "pending" !in ProcessingWords && "pending" !in CompleteWords && "pending" !in FailedWords
  {
    var w := "pending";
    assert |w| == 7 && w[0] == 'p' && w[1] == 'e';
  }

  /** A parsed status is complete exactly for the three completion words. */
  lemma FromApiIsComplete(s: string)
    ensures FromApi(Some(s)).IsComplete() <==> Lower(s) in CompleteWords
  {
  }

  /**
   * `SpeechRecording.aggregatedStatus` (Kotlin) and
   * `aggregatedProcessingStatus` (Swift): failure of either stage wins, then
   * a complete feedback stage, then any activity, else pending. The upload
   * status and the stored overall status are not inputs.
   */
  function Aggregate(feedback: ProcessingStatus, transcription: ProcessingStatus): (r: ProcessingStatus)
    ensures r == ProcessingStatus.Failed <==> (feedback == ProcessingStatus.Failed || transcription == ProcessingStatus.Failed)
    ensures r == ProcessingStatus.Complete <==> (r != ProcessingStatus.Failed && feedback == ProcessingStatus.Complete)
  {
    if feedback == ProcessingStatus.Failed || transcription == ProcessingStatus.Failed then ProcessingStatus.Failed
    else if feedback == ProcessingStatus.Complete then ProcessingStatus.Complete
    else if feedback == ProcessingStatus.Processing || transcription == ProcessingStatus.Complete then ProcessingStatus.Processing
    else if transcription == ProcessingStatus.Processing then ProcessingStatus.Processing
    else ProcessingStatus.Pending
  }

  /** The aggregate is pending only while both stages are pending, and processing exactly when some stage moved but neither failed nor feedback finished. */
  lemma AggregatePendingIffBothPending(feedback: ProcessingStatus, transcription: ProcessingStatus)
    ensures Aggregate(feedback, transcription) == ProcessingStatus.Pending <==>
      (feedback == ProcessingStatus.Pending && transcription == ProcessingStatus.Pending)
    ensures Aggregate(feedback, transcription) == ProcessingStatus.Processing <==>
      (feedback != ProcessingStatus.Failed && transcription != ProcessingStatus.Failed && feedback != ProcessingStatus.Complete
       && (feedback == ProcessingStatus.Processing || transcription in {ProcessingStatus.Processing, ProcessingStatus.Complete}))
  {
  }

  /** The aggregate never reports more progress than the feedback stage has made, unless a stage failed. */
  lemma AggregateCompleteNeedsFeedback(feedback: ProcessingStatus, transcription: ProcessingStatus)
    ensures Aggregate(feedback, transcription).IsComplete() ==> feedback.IsComplete() && transcription != ProcessingStatus.Failed
  {
  }
}
