// Status presentation of speech recordings on the iOS timer screen
// (`RecordingCard` in TimerMainView.swift) and the feedback list
// (`FeedbackListView` and its `FeedbackCard`).

module IosCards {
  import opened Wrappers
  import opened Statuses
  import opened Text
  import opened Clock

  /** The `Constants.Colors` a status indicator can take. */
  datatype StatusColor = CompleteColor | FailedColor | UploadingColor | ProcessingColor | PendingColor

  /** The fields of a `SpeechRecording` that the cards and lists read. */
  datatype CardRecording = CardRecording(
    id: string,
    sessionId: Option<string>,
    durationSeconds: int,
    uploadStatus: UploadStatus,
    processingStatus: ProcessingStatus,
    feedbackStatus: ProcessingStatus)

  // ------------------------------------------------------------ timer screen card

  /** `RecordingCard.statusColor`: completion first, then any failure, then upload, then processing. */
  function TimerCardColor(r: CardRecording): StatusColor
  {
    if r.processingStatus == ProcessingStatus.Complete then CompleteColor
    else if r.uploadStatus == UploadStatus.Failed || r.processingStatus == ProcessingStatus.Failed then FailedColor
    else if r.uploadStatus == UploadStatus.Uploading then UploadingColor
    else if r.processingStatus == ProcessingStatus.Processing then ProcessingColor
    else PendingColor
  }

  /** `RecordingCard.statusText`: the same chain, except that only an upload failure reads "Failed". */
  function TimerCardText(r: CardRecording): string
  {
    if r.processingStatus == ProcessingStatus.Complete then "Ready"
    else if r.uploadStatus == UploadStatus.Failed then "Failed"
    else if r.uploadStatus == UploadStatus.Uploading then "Uploading"
    else if r.processingStatus == ProcessingStatus.Processing then "Processing"
    else "Pending"
  }

  /**
   * The timer card's text agrees with its colour except in one case:
   * a failed processing stage colours the card as failed while the text
   * still reads "Uploading", "Processing" or "Pending".
   */
  lemma TimerCardTextFollowsColor(r: CardRecording)
    ensures TimerCardColor(r) == CompleteColor <==> TimerCardText(r) == "Ready"
    ensures TimerCardText(r) == "Failed" ==> TimerCardColor(r) == FailedColor
    ensures TimerCardColor(r) == UploadingColor ==> TimerCardText(r) == "Uploading"
    ensures TimerCardColor(r) == ProcessingColor ==> TimerCardText(r) == "Processing"
    ensures TimerCardColor(r) == PendingColor ==> TimerCardText(r) == "Pending"
    ensures TimerCardColor(r) == FailedColor && TimerCardText(r) != "Failed"
      <==> r.processingStatus == ProcessingStatus.Failed && r.uploadStatus != UploadStatus.Failed
  {
  }

  /** The text is always one of the five labels, and "Ready" exactly when processing completed. */
  lemma TimerCardTextLabels(r: CardRecording)
    ensures TimerCardText(r) in {"Ready", "Failed", "Uploading", "Processing", "Pending"}
    ensures TimerCardText(r) == "Ready" <==> r.processingStatus == ProcessingStatus.Complete
    ensures TimerCardText(r) == "Failed" <==> r.processingStatus != ProcessingStatus.Complete && r.uploadStatus == UploadStatus.Failed
  {
  }

  /** The linear upload progress bar: only while uploading, and only when a progress value exists for the id. */
  predicate ShowsUploadProgress(r: CardRecording, uploadProgress: map<string, real>)
  {
    r.uploadStatus == UploadStatus.Uploading && r.id in uploadProgress
  }

  /** A card showing upload progress reads "Uploading", or "Ready" if processing already completed. */
  lemma UploadProgressBesideUploadingText(r: CardRecording, uploadProgress: map<string, real>)
    requires ShowsUploadProgress(r, uploadProgress)
    ensures TimerCardText(r) == "Uploading" || TimerCardText(r) == "Ready"
    ensures r.processingStatus != ProcessingStatus.Complete ==> TimerCardColor(r) in {UploadingColor, FailedColor}
  {
  }

  /** `RecordingCard.isPlaying`: this card's recording is the one the view model plays, and playback is on. */
  predicate IsPlaying(r: CardRecording, playingRecordingId: Option<string>, servicePlaying: bool)
  {
    playingRecordingId == Some(r.id) && servicePlaying
  }

  /** At most one recording id is highlighted as playing at a time, and none while playback is off. */
  lemma AtMostOnePlaying(a: CardRecording, b: CardRecording, playingRecordingId: Option<string>, servicePlaying: bool)
    requires IsPlaying(a, playingRecordingId, servicePlaying) && IsPlaying(b, playingRecordingId, servicePlaying)
    ensures a.id == b.id && servicePlaying
  {
  }

  // ------------------------------------------------------------ feedback list

  /** `FeedbackListView.recordings`: the recordings whose session is the one shown, in query order. */
  function SessionRecordings(all: seq<CardRecording>, sessionId: string): (rs: seq<CardRecording>)
    ensures |rs| <= |all|
    ensures forall r :: r in rs <==> r in all && r.sessionId == Some(sessionId)
  {
    if all == [] then []
    else
      var rest := SessionRecordings(all[1..], sessionId);
      assert forall r :: r in all <==> r == all[0] || r in all[1..];
      if all[0].sessionId == Some(sessionId) then [all[0]] + rest else rest
  }

  /** The number of recordings with the given processing status. */
  function CountProcessing(rs: seq<CardRecording>, p: ProcessingStatus): (n: nat)
    ensures n <= |rs|
  {
    if rs == [] then 0
    else (if rs[0].processingStatus == p then 1 else 0) + CountProcessing(rs[1..], p)
  }

  /** `readyCount`. */
  function ReadyCount(rs: seq<CardRecording>): nat
  {
    CountProcessing(rs, ProcessingStatus.Complete)
  }

  /** `processingCount`. */
  function ProcessingCount(rs: seq<CardRecording>): nat
  {
    CountProcessing(rs, ProcessingStatus.Processing)
  }

  /** Ready and processing recordings are disjoint, so together they never exceed the list. */
  lemma {:induction false} ReadyAndProcessingWithinTotal(rs: seq<CardRecording>)
    ensures ReadyCount(rs) + ProcessingCount(rs) <= |rs|
    ensures ReadyCount(rs) + ProcessingCount(rs) == |rs|
      <==> forall r :: r in rs ==> r.processingStatus in {ProcessingStatus.Complete, ProcessingStatus.Processing}
  {
    if rs != [] {
      ReadyAndProcessingWithinTotal(rs[1..]);
      assert forall r :: r in rs <==> r == rs[0] || r in rs[1..];
    }
  }

  /** Every shown recording counts as ready exactly when its processing has completed. */
  lemma {:induction false} ReadyCountAllComplete(rs: seq<CardRecording>)
    ensures ReadyCount(rs) == |rs| <==> forall r :: r in rs ==> r.processingStatus == ProcessingStatus.Complete
  {
    if rs != [] {
      ReadyCountAllComplete(rs[1..]);
      assert forall r :: r in rs <==> r == rs[0] || r in rs[1..];
    }
  }

  /** The duration a feedback card prints: whole minutes, ':' and the seconds as `%02d`. */
  function FeedbackDurationText(durationSeconds: int): string
  {
    IntToString(Quot(durationSeconds, 60)) + ":" + Pad2(Rem(durationSeconds, 60))
  }

  /**
   * For a non-negative duration the text reads back: the minutes (not
   * capped) before the last ':' and exactly two digits of seconds in
   * [0, 59] after it, which recombine to the duration.
   */
  lemma FeedbackDurationReadsBack(durationSeconds: int)
    requires 0 <= durationSeconds <= Int64Max
    ensures var t := FeedbackDurationText(durationSeconds);
      var m := durationSeconds / 60; var sec := durationSeconds % 60;
      && |t| >= 4 && t[|t| - 3] == ':'
      && ParseInt(t[..|t| - 3]) == Some(m) && ParseInt(t[|t| - 2..]) == Some(sec)
      && 0 <= sec < 60 && m * 60 + sec == durationSeconds
  {
    var m := durationSeconds / 60;
    var sec := durationSeconds % 60;
    assert Quot(durationSeconds, 60) == m && Rem(durationSeconds, 60) == sec;
    Pad2Value(sec);
    ParseIntOfIntToString(m);
    var t := FeedbackDurationText(durationSeconds);
    var ms := IntToString(m);
    assert t == ms + ":" + Pad2(sec);
    assert t[..|t| - 3] == ms;
    assert t[|t| - 2..] == Pad2(sec);
    assert Pad2(sec)[0] != '-' && Pad2(sec)[0] != '+';
  }

  /** `FeedbackCard.statusColor`: a switch on the processing status alone. */
  function FeedbackCardColor(r: CardRecording): StatusColor
  {
    match r.processingStatus
    case Complete => CompleteColor
    case Processing => ProcessingColor
    case Failed => FailedColor
    case Pending => PendingColor
  }

  /**
   * The completed label as the Swift file spells it: the three characters
   * that the UTF-8 bytes of a check mark become when read as Windows-1252,
   * then a space and "Ready".
   */
  const FeedbackReadyLabel := "\U{00E2}\U{0153}\U{201C} Ready"

  /** `FeedbackCard.statusText`: processing states first; the upload state only while processing is pending. */
  function FeedbackCardText(r: CardRecording): string
  {
    if r.processingStatus == ProcessingStatus.Complete then FeedbackReadyLabel
    else if r.processingStatus == ProcessingStatus.Processing then "Processing..."
    else if r.processingStatus == ProcessingStatus.Failed then "Failed"
    else if r.uploadStatus == UploadStatus.Uploading then "Uploading..."
    else if r.uploadStatus == UploadStatus.Failed then "Upload Failed"
    else "Pending"
  }

  /** The feedback card's colour ignores the upload status. */
  lemma FeedbackCardColorIgnoresUpload(r: CardRecording, u: UploadStatus)
    ensures FeedbackCardColor(r.(uploadStatus := u)) == FeedbackCardColor(r)
  {
  }

  /**
   * On the feedback card the text names the upload only while processing
   * is pending, where the colour stays pending: an upload failure is
   * written out but drawn in the pending colour.
   */
  lemma FeedbackCardTextFollowsColor(r: CardRecording)
    ensures FeedbackCardColor(r) == CompleteColor <==> FeedbackCardText(r) == FeedbackReadyLabel
    ensures FeedbackCardColor(r) == ProcessingColor <==> FeedbackCardText(r) == "Processing..."
    ensures FeedbackCardColor(r) == FailedColor <==> FeedbackCardText(r) == "Failed"
    ensures FeedbackCardColor(r) == PendingColor
      <==> FeedbackCardText(r) in {"Uploading...", "Upload Failed", "Pending"}
    ensures FeedbackCardText(r) == "Upload Failed" <==>
      r.processingStatus == ProcessingStatus.Pending && r.uploadStatus == UploadStatus.Failed
  {
  }

  /** The two screens read a completed processing stage the same way, and disagree on a failed upload once processing has started. */
  lemma CardsAgreeOnCompletion(r: CardRecording)
    ensures TimerCardColor(r) == CompleteColor <==> FeedbackCardColor(r) == CompleteColor
    ensures r.uploadStatus == UploadStatus.Failed && r.processingStatus == ProcessingStatus.Processing ==>
      TimerCardText(r) == "Failed" && FeedbackCardText(r) == "Processing..."
  {
  }
}
