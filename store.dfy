/**
 * The rows of the Android Room store and the pure meaning of every DAO
 * statement: how an entity is written to its table (enum columns hold the
 * constant name, booleans hold 1 or 0) and read back through the cursor,
 * what `INSERT OR REPLACE`, `DELETE ... WHERE` and the transactional
 * replace operations do to a table, and the orderings of the SELECTs.
 * A table is a map from the `id` primary key to its row.
 */
module Store {
  import opened Wrappers
  import opened Statuses
  import opened Formats
  import opened Models
  import opened Converters

  datatype TeacherRow = TeacherRow(
    id: string, name: string, deviceId: string, authToken: Option<string>,
    isAdmin: int, createdAt: int)

  datatype StudentRow = StudentRow(
    id: string, name: string, level: Option<string>, createdAt: int, sessionId: Option<string>)

  datatype SessionRow = SessionRow(
    id: string, motion: string, format: Option<string>, studentLevel: Option<string>,
    speechTimeSeconds: int, replyTimeSeconds: Option<int>, createdAt: int, isGuestMode: int,
    teacherId: Option<string>, classId: Option<string>, scheduleId: Option<string>,
    backendDebateId: Option<string>, teamComposition: Option<TeamComposition>)

  datatype RecordingRow = RecordingRow(
    id: string, speakerName: string, speakerPosition: string, studentId: Option<string>,
    localFilePath: string, durationSeconds: int, recordedAt: int,
    uploadStatus: Option<string>, processingStatus: Option<string>,
    transcriptionStatus: Option<string>, feedbackStatus: Option<string>,
    feedbackUrl: Option<string>, speechId: Option<string>, feedbackContent: Option<string>,
    transcriptUrl: Option<string>, transcriptText: Option<string>,
    transcriptionErrorMessage: Option<string>, feedbackErrorMessage: Option<string>,
    uploadProgress: real, debateSessionId: string)

  /** The `IllegalStateException` the cursor code throws for a NULL enum column. */
  function NullColumn(typeName: string): string
  {
    "Expected NON-NULL 'com.debatefeedback.domain.model." + typeName + "', but it was NULL."
  }

  /** A converted enum column that the entity declares non-null. */
  function NonNull<T>(converted: Result<Option<T>>, typeName: string): (r: Result<T>)
    ensures converted.Success? && converted.value.Some? <==> r.Success?
    ensures r.Success? ==> r.value == converted.value.value
    ensures converted.Failure? ==> r == Failure(converted.error)
    ensures converted == Success(None) ==> r == Failure(NullColumn(typeName))
  {
    match converted
    case Failure(e) => Failure(e)
    case Success(None) => Failure(NullColumn(typeName))
    case Success(Some(v)) => Success(v)
  }

  // ---------------------------------------------------------------- teachers

  /** The insertion adapter's bindings for a teacher. */
  function EncodeTeacher(t: Teacher): (row: TeacherRow)
    ensures row.id == t.id && row.createdAt == t.createdAt
    ensures row.isAdmin == 1 <==> t.isAdmin
    ensures row.isAdmin == 0 <==> !t.isAdmin
  {
    TeacherRow(t.id, t.name, t.deviceId, t.authToken, if t.isAdmin then 1 else 0, t.createdAt)
  }

  /** The cursor read of a teacher row: no enum column, so it never fails. */
  function DecodeTeacher(row: TeacherRow): (t: Teacher)
    ensures t.id == row.id && t.createdAt == row.createdAt
    ensures t.isAdmin <==> row.isAdmin != 0
  {
    Teacher(row.id, row.name, row.deviceId, row.authToken, row.isAdmin != 0, row.createdAt)
  }

  // ---------------------------------------------------------------- students

  function EncodeStudent(s: Student): (row: StudentRow)
    ensures row.id == s.id && row.createdAt == s.createdAt && row.sessionId == s.sessionId
    ensures row.level == Some(s.level.Name())
  {
    StudentRow(s.id, s.name, FromLevel(Some(s.level)), s.createdAt, s.sessionId)
  }

  function DecodeStudent(row: StudentRow): (r: Result<Student>)
    ensures r.Success? ==> r.value.id == row.id && r.value.createdAt == row.createdAt && r.value.sessionId == row.sessionId
    ensures row.level.None? ==> r == Failure(NullColumn("StudentLevel"))
  {
    match NonNull(ToLevel(row.level), "StudentLevel")
    case Failure(e) => Failure(e)
    case Success(level) => Success(Student(row.id, row.name, level, row.createdAt, row.sessionId))
  }

  // ---------------------------------------------------------------- sessions

  function EncodeSession(s: DebateSession): (row: SessionRow)
    ensures row.id == s.id && row.createdAt == s.createdAt
    ensures row.format == Some(s.format.Name()) && row.studentLevel == Some(s.studentLevel.Name())
    ensures row.isGuestMode == (if s.isGuestMode then 1 else 0)
  {
    SessionRow(s.id, s.motion, FromFormat(Some(s.format)), FromLevel(Some(s.studentLevel)),
      s.speechTimeSeconds, s.replyTimeSeconds, s.createdAt, if s.isGuestMode then 1 else 0,
      s.teacherId, s.classId, s.scheduleId, s.backendDebateId, s.teamComposition)
  }

  /** The cursor read of a session: the format column is checked before the level column. */
  function DecodeSession(row: SessionRow): (r: Result<DebateSession>)
    ensures r.Success? ==> r.value.id == row.id && r.value.createdAt == row.createdAt
    ensures r.Success? ==> (r.value.isGuestMode <==> row.isGuestMode != 0)
    ensures row.format.None? ==> r == Failure(NullColumn("DebateFormat"))
    ensures row.format.Some? && ToFormat(row.format).Success? && row.studentLevel.None?
      ==> r == Failure(NullColumn("StudentLevel"))
  {
    match NonNull(ToFormat(row.format), "DebateFormat")
    case Failure(e) => Failure(e)
    case Success(format) =>
      match NonNull(ToLevel(row.studentLevel), "StudentLevel")
      case Failure(e) => Failure(e)
      case Success(level) =>
        Success(DebateSession(row.id, row.motion, format, level, row.speechTimeSeconds,
          row.replyTimeSeconds, row.createdAt, row.isGuestMode != 0, row.teacherId, row.classId,
          row.scheduleId, row.backendDebateId, row.teamComposition))
  }

  // -------------------------------------------------------------- recordings

  function EncodeRecording(r: SpeechRecording): (row: RecordingRow)
    ensures row.id == r.id && row.recordedAt == r.recordedAt && row.debateSessionId == r.debateSessionId
    ensures row.uploadStatus == Some(r.uploadStatus.Name())
    ensures row.feedbackStatus == Some(r.feedbackStatus.Name())
  {
    RecordingRow(r.id, r.speakerName, r.speakerPosition, r.studentId, r.localFilePath,
      r.durationSeconds, r.recordedAt,
      FromUploadStatus(Some(r.uploadStatus)), FromProcessingStatus(Some(r.processingStatus)),
      FromProcessingStatus(Some(r.transcriptionStatus)), FromProcessingStatus(Some(r.feedbackStatus)),
      r.feedbackUrl, r.speechId, r.feedbackContent, r.transcriptUrl, r.transcriptText,
      r.transcriptionErrorMessage, r.feedbackErrorMessage, r.uploadProgress, r.debateSessionId)
  }

  /** The cursor read of a recording: upload, processing, transcription, then feedback status. */
  function DecodeRecording(row: RecordingRow): (r: Result<SpeechRecording>)
    ensures r.Success? ==> r.value.id == row.id && r.value.recordedAt == row.recordedAt
    ensures r.Success? ==> r.value.debateSessionId == row.debateSessionId
    ensures row.uploadStatus.None? ==> r == Failure(NullColumn("UploadStatus"))
  {
    match NonNull(ToUploadStatus(row.uploadStatus), "UploadStatus")
    case Failure(e) => Failure(e)
    case Success(upload) =>
      match NonNull(ToProcessingStatus(row.processingStatus), "ProcessingStatus")
      case Failure(e) => Failure(e)
      case Success(processing) =>
        match NonNull(ToProcessingStatus(row.transcriptionStatus), "ProcessingStatus")
        case Failure(e) => Failure(e)
        case Success(transcription) =>
          match NonNull(ToProcessingStatus(row.feedbackStatus), "ProcessingStatus")
          case Failure(e) => Failure(e)
          case Success(feedback) =>
            Success(SpeechRecording(row.id, row.speakerName, row.speakerPosition, row.studentId,
              row.localFilePath, row.durationSeconds, row.recordedAt, upload, processing,
              transcription, feedback, row.feedbackUrl, row.speechId, row.feedbackContent,
              row.transcriptUrl, row.transcriptText, row.transcriptionErrorMessage,
              row.feedbackErrorMessage, row.uploadProgress, row.debateSessionId))
  }

  /** Every entity written to its table reads back as itself. */
  lemma EntityRoundTrip(t: Teacher, s: Student, d: DebateSession, r: SpeechRecording)
    ensures DecodeTeacher(EncodeTeacher(t)) == t
    ensures DecodeStudent(EncodeStudent(s)) == Success(s)
    ensures DecodeSession(EncodeSession(d)) == Success(d)
    ensures DecodeRecording(EncodeRecording(r)) == Success(r)
  {
    ConvertersRoundTrip(Some(d.format), Some(d.studentLevel), Some(r.uploadStatus), Some(r.processingStatus));
    ConvertersRoundTrip(Some(d.format), Some(s.level), Some(r.uploadStatus), Some(r.transcriptionStatus));
    ConvertersRoundTrip(Some(d.format), Some(s.level), Some(r.uploadStatus), Some(r.feedbackStatus));
  }

  /**
   * A row that reads successfully is the row its entity writes: enum columns
   * can only hold constant names, and the boolean column is normalised to 1/0.
   */
  lemma RowRoundTrip(s: StudentRow, d: SessionRow, r: RecordingRow)
    ensures DecodeStudent(s).Success? ==> EncodeStudent(DecodeStudent(s).value) == s
    ensures DecodeSession(d).Success? ==>
      EncodeSession(DecodeSession(d).value) == d.(isGuestMode := if d.isGuestMode != 0 then 1 else 0)
    ensures DecodeRecording(r).Success? ==> EncodeRecording(DecodeRecording(r).value) == r
  {
    if DecodeStudent(s).Success? {
      ConvertersReverseRoundTrip(s.level.value);
    }
    if DecodeSession(d).Success? {
      ConvertersReverseRoundTrip(d.format.value);
      ConvertersReverseRoundTrip(d.studentLevel.value);
    }
    if DecodeRecording(r).Success? {
      ConvertersReverseRoundTrip(r.uploadStatus.value);
      ConvertersReverseRoundTrip(r.processingStatus.value);
      ConvertersReverseRoundTrip(r.transcriptionStatus.value);
      ConvertersReverseRoundTrip(r.feedbackStatus.value);
    }
  }

  /** A recording row is never read partially: it reads exactly when all four status columns hold constant names. */
  lemma DecodeRecordingSucceeds(row: RecordingRow)
    ensures DecodeRecording(row).Success? <==>
      (&& row.uploadStatus.Some? && row.uploadStatus.value in {"PENDING", "UPLOADING", "UPLOADED", "FAILED"}
       && row.processingStatus.Some? && row.processingStatus.value in {"PENDING", "PROCESSING", "COMPLETE", "FAILED"}
       && row.transcriptionStatus.Some? && row.transcriptionStatus.value in {"PENDING", "PROCESSING", "COMPLETE", "FAILED"}
       && row.feedbackStatus.Some? && row.feedbackStatus.value in {"PENDING", "PROCESSING", "COMPLETE", "FAILED"})
  {
  }

  // ------------------------------------------------------ table transitions

  /** The row stored under a key, if any. */
  function Lookup<T>(m: map<string, T>, k: string): (r: Option<T>)
    ensures r.Some? <==> k in m
    ensures r.Some? ==> r.value == m[k]
  {
    if k in m then Some(m[k]) else None
  }

  /** Two tables that agree on every key are the same table. */
  lemma TableExtensionality<T>(a: map<string, T>, b: map<string, T>)
    requires forall k :: Lookup(a, k) == Lookup(b, k)
    ensures a == b
  {
    assert a.Keys == b.Keys by {
      forall k ensures k in a <==> k in b {
        assert Lookup(a, k) == Lookup(b, k);
      }
    }
    forall k | k in a ensures a[k] == b[k] {
      assert Lookup(a, k) == Lookup(b, k);
    }
  }

  /** `INSERT OR REPLACE` of each row in list order, as the insertion adapter's loop does. */
  function UpsertAll<T>(m: map<string, T>, rows: seq<T>, id: T -> string): map<string, T>
  {
    if |rows| == 0 then m
    else var last := rows[|rows| - 1]; UpsertAll(m, rows[..|rows| - 1], id)[id(last) := last]
  }

  /** The last row of the list with the given key, if any. */
  function LastWith<T>(rows: seq<T>, id: T -> string, k: string): (r: Option<T>)
    ensures r.Some? ==> r.value in rows && id(r.value) == k
    ensures r.None? <==> forall i :: 0 <= i < |rows| ==> id(rows[i]) != k
  {
    if |rows| == 0 then None
    else if id(rows[|rows| - 1]) == k then Some(rows[|rows| - 1])
    else LastWith(rows[..|rows| - 1], id, k)
  }

  /**
   * After the upserts a key holds the last listed row with that key, and
   * a key no row mentions keeps its old row (or stays absent).
   */
  lemma {:induction false} UpsertAllLookup<T>(m: map<string, T>, rows: seq<T>, id: T -> string, k: string)
    ensures Lookup(UpsertAll(m, rows, id), k) == LastWith(rows, id, k).Or(Lookup(m, k))
  {
    if |rows| > 0 {
      UpsertAllLookup(m, rows[..|rows| - 1], id, k);
    }
  }

  /** An empty list leaves the table unchanged. */
  lemma UpsertAllEmpty<T>(m: map<string, T>, id: T -> string)
    ensures UpsertAll(m, [], id) == m
  {
  }

  /** Of two rows with the same key, the later one wins. */
  lemma UpsertLaterWins<T>(m: map<string, T>, x: T, y: T, id: T -> string)
    requires id(x) == id(y)
    ensures UpsertAll(m, [x, y], id) == m[id(y) := y]
  {
    assert [x, y][..1] == [x];
    assert [x][..0] == [];
    assert UpsertAll(m, [x], id) == UpsertAll(m, [], id)[id(x) := x];
    assert UpsertAll(m, [x, y], id) == UpsertAll(m, [x], id)[id(y) := y];
  }

  /** Upserting a list twice is the same as upserting it once. */
  lemma UpsertAllTwice<T>(m: map<string, T>, rows: seq<T>, id: T -> string)
    ensures UpsertAll(UpsertAll(m, rows, id), rows, id) == UpsertAll(m, rows, id)
  {
    var once := UpsertAll(m, rows, id);
    forall k ensures Lookup(UpsertAll(once, rows, id), k) == Lookup(once, k) {
      UpsertAllLookup(once, rows, id, k);
      UpsertAllLookup(m, rows, id, k);
    }
    TableExtensionality(UpsertAll(once, rows, id), once);
  }

  function TeacherId(r: TeacherRow): string { r.id }
  function StudentId(r: StudentRow): string { r.id }
  function SessionId(r: SessionRow): string { r.id }
  function RecordingId(r: RecordingRow): string { r.id }

  function StudentCreatedAt(r: StudentRow): int { r.createdAt }
  function SessionCreatedAt(r: SessionRow): int { r.createdAt }
  function RecordingRecordedAt(r: RecordingRow): int { r.recordedAt }

  /** The ids of a query result, in order. */
  function StudentIds(xs: seq<Student>): (r: seq<string>)
    ensures |r| == |xs| && forall i :: 0 <= i < |xs| ==> r[i] == xs[i].id
  {
    seq(|xs|, i requires 0 <= i < |xs| => xs[i].id)
  }

  function SessionIds(xs: seq<DebateSession>): (r: seq<string>)
    ensures |r| == |xs| && forall i :: 0 <= i < |xs| ==> r[i] == xs[i].id
  {
    seq(|xs|, i requires 0 <= i < |xs| => xs[i].id)
  }

  function RecordingIds(xs: seq<SpeechRecording>): (r: seq<string>)
    ensures |r| == |xs| && forall i :: 0 <= i < |xs| ==> r[i] == xs[i].id
  {
    seq(|xs|, i requires 0 <= i < |xs| => xs[i].id)
  }

  /** Each row is stored under its own id. */
  predicate KeyedById<T>(m: map<string, T>, id: T -> string)
  {
    forall k :: k in m ==> id(m[k]) == k
  }

  lemma {:induction false} UpsertAllKeyed<T>(m: map<string, T>, rows: seq<T>, id: T -> string)
    requires KeyedById(m, id)
    ensures KeyedById(UpsertAll(m, rows, id), id)
  {
    if |rows| > 0 {
      UpsertAllKeyed(m, rows[..|rows| - 1], id);
    }
  }

  /** `DELETE FROM students WHERE sessionId = ?`: a NULL sessionId never equals the argument. */
  function DeleteStudentsOf(m: map<string, StudentRow>, sessionId: string): (r: map<string, StudentRow>)
    ensures forall k :: k in r <==> k in m && m[k].sessionId != Some(sessionId)
    ensures forall k :: k in r ==> r[k] == m[k]
  {
    map k | k in m && m[k].sessionId != Some(sessionId) :: m[k]
  }

  /** `DELETE FROM speech_recordings WHERE debateSessionId = ?`. */
  function DeleteRecordingsOf(m: map<string, RecordingRow>, sessionId: string): (r: map<string, RecordingRow>)
    ensures forall k :: k in r <==> k in m && m[k].debateSessionId != sessionId
    ensures forall k :: k in r ==> r[k] == m[k]
  {
    map k | k in m && m[k].debateSessionId != sessionId :: m[k]
  }

  function StudentRows(students: seq<Student>): (rows: seq<StudentRow>)
    ensures |rows| == |students| && forall i :: 0 <= i < |students| ==> rows[i] == EncodeStudent(students[i])
  {
    seq(|students|, i requires 0 <= i < |students| => EncodeStudent(students[i]))
  }

  function RecordingRows(recordings: seq<SpeechRecording>): (rows: seq<RecordingRow>)
    ensures |rows| == |recordings| && forall i :: 0 <= i < |recordings| ==> rows[i] == EncodeRecording(recordings[i])
  {
    seq(|recordings|, i requires 0 <= i < |recordings| => EncodeRecording(recordings[i]))
  }

  /** `replaceStudents`: delete the session's students, then upsert the list. */
  function ReplaceStudents(m: map<string, StudentRow>, sessionId: string, students: seq<Student>): map<string, StudentRow>
  {
    UpsertAll(DeleteStudentsOf(m, sessionId), StudentRows(students), StudentId)
  }

  /** `replaceRecordings`: delete the session's recordings, then upsert the list. */
  function ReplaceRecordings(m: map<string, RecordingRow>, sessionId: string, recordings: seq<SpeechRecording>): map<string, RecordingRow>
  {
    UpsertAll(DeleteRecordingsOf(m, sessionId), RecordingRows(recordings), RecordingId)
  }

  /**
   * After `replaceStudents(sid, list)`: a listed id holds the last listed
   * student with it; an unlisted student of that session is gone; any other
   * unlisted student is untouched.
   */
  lemma ReplaceStudentsEffect(m: map<string, StudentRow>, sid: string, students: seq<Student>, k: string)
    ensures var r := ReplaceStudents(m, sid, students);
      && (LastWith(StudentRows(students), StudentId, k).Some? ==> k in r && r[k] == LastWith(StudentRows(students), StudentId, k).value)
      && (LastWith(StudentRows(students), StudentId, k).None? ==>
            (k in r <==> k in m && m[k].sessionId != Some(sid)) && (k in r ==> r[k] == m[k]))
  {
    UpsertAllLookup(DeleteStudentsOf(m, sid), StudentRows(students), StudentId, k);
  }

  /** Every listed student is present afterwards, stored as written. */
  lemma ReplaceStudentsContainsList(m: map<string, StudentRow>, sid: string, students: seq<Student>, i: nat)
    requires i < |students|
    ensures students[i].id in ReplaceStudents(m, sid, students)
  {
    var rows := StudentRows(students);
    var k := students[i].id;
    assert StudentId(rows[i]) == k;
    UpsertAllLookup(DeleteStudentsOf(m, sid), rows, StudentId, k);
  }

  /** `replaceStudents` is idempotent. */
  lemma ReplaceStudentsIdempotent(m: map<string, StudentRow>, sid: string, students: seq<Student>)
    ensures ReplaceStudents(ReplaceStudents(m, sid, students), sid, students) == ReplaceStudents(m, sid, students)
  {
    var rows := StudentRows(students);
    var once := ReplaceStudents(m, sid, students);
    var twice := ReplaceStudents(once, sid, students);
    forall k ensures Lookup(twice, k) == Lookup(once, k) {
      UpsertAllLookup(DeleteStudentsOf(once, sid), rows, StudentId, k);
      UpsertAllLookup(DeleteStudentsOf(m, sid), rows, StudentId, k);
    }
    TableExtensionality(twice, once);
  }

  /** `replaceStudents(sid, [])` is `deleteStudentsForSession(sid)`. */
  lemma ReplaceStudentsWithNone(m: map<string, StudentRow>, sid: string)
    ensures ReplaceStudents(m, sid, []) == DeleteStudentsOf(m, sid)
  {
    assert StudentRows([]) == [];
  }

  /** The recording counterpart of `ReplaceStudentsEffect`. */
  lemma ReplaceRecordingsEffect(m: map<string, RecordingRow>, sid: string, recordings: seq<SpeechRecording>, k: string)
    ensures var r := ReplaceRecordings(m, sid, recordings);
      && (LastWith(RecordingRows(recordings), RecordingId, k).Some? ==> k in r && r[k] == LastWith(RecordingRows(recordings), RecordingId, k).value)
      && (LastWith(RecordingRows(recordings), RecordingId, k).None? ==>
            (k in r <==> k in m && m[k].debateSessionId != sid) && (k in r ==> r[k] == m[k]))
  {
    UpsertAllLookup(DeleteRecordingsOf(m, sid), RecordingRows(recordings), RecordingId, k);
  }

  /** `replaceRecordings` is idempotent, and with an empty list it is `deleteRecordings`. */
  lemma ReplaceRecordingsIdempotent(m: map<string, RecordingRow>, sid: string, recordings: seq<SpeechRecording>)
    ensures ReplaceRecordings(ReplaceRecordings(m, sid, recordings), sid, recordings) == ReplaceRecordings(m, sid, recordings)
    ensures ReplaceRecordings(m, sid, []) == DeleteRecordingsOf(m, sid)
  {
    var rows := RecordingRows(recordings);
    var once := ReplaceRecordings(m, sid, recordings);
    var twice := ReplaceRecordings(once, sid, recordings);
    forall k ensures Lookup(twice, k) == Lookup(once, k) {
      UpsertAllLookup(DeleteRecordingsOf(once, sid), rows, RecordingId, k);
      UpsertAllLookup(DeleteRecordingsOf(m, sid), rows, RecordingId, k);
    }
    TableExtensionality(twice, once);
    assert RecordingRows([]) == [];
  }

  // ------------------------------------------------------------ ORDER BY

  /** `ORDER BY key ASC` or `DESC` between two neighbours. */
  predicate InOrder(a: int, b: int, ascending: bool)
  {
    if ascending then a <= b else a >= b
  }

  /** A non-empty finite set of keys has an element that may come first. */
  lemma {:induction false} ExtremeExists<T>(m: map<string, T>, s: set<string>, key: T -> int, ascending: bool)
    requires s != {} && s <= m.Keys
    ensures exists k :: k in s && forall j :: j in s ==> InOrder(key(m[k]), key(m[j]), ascending)
  {
    var x :| x in s;
    if s != {x} {
      var rest := s - {x};
      ExtremeExists(m, rest, key, ascending);
      var y :| y in rest && forall j :: j in rest ==> InOrder(key(m[y]), key(m[j]), ascending);
      if InOrder(key(m[x]), key(m[y]), ascending) {
        assert forall j :: j in s ==> InOrder(key(m[x]), key(m[j]), ascending);
      } else {
        assert forall j :: j in s ==> InOrder(key(m[y]), key(m[j]), ascending);
      }
    }
  }

  /**
   * The keys of the selected rows in `ORDER BY` order: every selected key
   * exactly once, and the sort key monotone. Rows with equal sort keys may
   * come in any order, as SQLite does not promise one.
   */
  method SelectOrdered<T>(m: map<string, T>, selected: set<string>, key: T -> int, ascending: bool)
    returns (ids: seq<string>)
    requires selected <= m.Keys
    ensures forall k :: k in ids <==> k in selected
    ensures |ids| == |selected|
    ensures forall i, j :: 0 <= i < j < |ids| ==> ids[i] != ids[j]
    ensures forall i, j :: 0 <= i < j < |ids| ==> InOrder(key(m[ids[i]]), key(m[ids[j]]), ascending)
  {
    ids := [];
    var rest := selected;
    while rest != {}
      invariant rest <= selected
      invariant forall k :: k in selected <==> k in rest || k in ids
      invariant forall k :: k in rest ==> k !in ids
      invariant |ids| + |rest| == |selected|
      invariant forall i, j :: 0 <= i < j < |ids| ==> ids[i] != ids[j]
      invariant forall i, j :: 0 <= i < j < |ids| ==> InOrder(key(m[ids[i]]), key(m[ids[j]]), ascending)
      invariant forall i, k :: 0 <= i < |ids| && k in rest ==> InOrder(key(m[ids[i]]), key(m[k]), ascending)
      decreases |rest|
    {
      ExtremeExists(m, rest, key, ascending);
      var k :| k in rest && forall j :: j in rest ==> InOrder(key(m[k]), key(m[j]), ascending);
      ids := ids + [k];
      rest := rest - {k};
    }
  }

  /**
   * The cursor loop: decode each selected row in order into a list; the
   * first row that cannot be read aborts the query with its exception.
   */
  method DecodeAll<R, E>(m: map<string, R>, ids: seq<string>, decode: R -> Result<E>)
    returns (r: Result<seq<E>>)
    requires forall i :: 0 <= i < |ids| ==> ids[i] in m
    ensures r.Success? <==> forall i :: 0 <= i < |ids| ==> decode(m[ids[i]]).Success?
    ensures r.Success? ==> |r.value| == |ids| && forall i :: 0 <= i < |ids| ==> decode(m[ids[i]]) == Success(r.value[i])
    ensures r.Failure? ==> exists i :: 0 <= i < |ids| && decode(m[ids[i]]) == Failure(r.error)
                                      && forall j :: 0 <= j < i ==> decode(m[ids[j]]).Success?
  {
    var items: seq<E> := [];
    for n := 0 to |ids|
      invariant |items| == n
      invariant forall i :: 0 <= i < n ==> decode(m[ids[i]]) == Success(items[i])
    {
      var item := decode(m[ids[n]]);
      if item.Failure? {
        return Failure(item.error);
      }
      items := items + [item.value];
    }
    r := Success(items);
  }
}
