/**
 * The Android Room database and its DAO as stateful objects. The database
 * owns the schema, the master table and the four entity tables; the DAO
 * reaches them through the database it was built for. Each DAO write runs
 * in one transaction, so each is one atomic method here.
 */
module Room {
  import opened Wrappers
  import opened Models
  import opened Schema
  import opened Store

  class DebateFeedbackDatabase {
    var schema: map<string, TableInfo>
    var master: map<int, string>
    var teachers: map<string, TeacherRow>
    var students: map<string, StudentRow>
    var sessions: map<string, SessionRow>
    var recordings: map<string, RecordingRow>
    var daoInstance: DebateFeedbackDao?

    /** Every row is stored under its own primary key, and the cached DAO belongs to this database. */
    predicate Valid()
      reads this
    {
      && KeyedById(teachers, TeacherId) && KeyedById(students, StudentId)
      && KeyedById(sessions, SessionId) && KeyedById(recordings, RecordingId)
      && (daoInstance != null ==> daoInstance.db == this)
    }

    /** An empty database file: no tables, no rows, no DAO yet. */
    constructor()
      ensures Valid()
      ensures schema == map[] && master == map[] && daoInstance == null
      ensures teachers == map[] && students == map[] && sessions == map[] && recordings == map[]
    {
      schema := map[];
      master := map[];
      teachers := map[];
      students := map[];
      sessions := map[];
      recordings := map[];
      daoInstance := null;
    }

    /** `createAllTables`: create the missing entity tables and record the identity hash. */
    method CreateAllTables()
      modifies this
      ensures schema == Schema.CreateAllTables(old(schema))
      ensures master == old(master)[MasterId := IdentityHash]
      ensures teachers == old(teachers) && students == old(students)
      ensures sessions == old(sessions) && recordings == old(recordings) && daoInstance == old(daoInstance)
    {
      schema := Schema.CreateAllTables(schema);
      master := master[MasterId := IdentityHash];
    }

    /** `dropAllTables`: drop exactly the four entity tables, and their rows with them. */
    method DropAllTables()
      modifies this
      ensures schema == old(schema) - {"teachers", "students", "debate_sessions", "speech_recordings"}
      ensures teachers == map[] && students == map[] && sessions == map[] && recordings == map[]
      ensures master == old(master) && daoInstance == old(daoInstance)
    {
      schema := schema - {"teachers", "students", "debate_sessions", "speech_recordings"};
      teachers := map[];
      students := map[];
      sessions := map[];
      recordings := map[];
    }

    /** `clearAllTables`: delete every row of the four tables in one transaction; the tables remain. */
    method ClearAllTables()
      modifies this
      ensures teachers == map[] && students == map[] && sessions == map[] && recordings == map[]
      ensures schema == old(schema) && master == old(master) && daoInstance == old(daoInstance)
    {
      teachers := map[];
      students := map[];
      sessions := map[];
      recordings := map[];
    }

    /** `debateDao`: built on first use, then the same instance on every call. */
    method DebateDao() returns (dao: DebateFeedbackDao)
      requires Valid()
      modifies this
      ensures Valid()
      ensures dao == daoInstance && dao.db == this
      ensures old(daoInstance) != null ==> dao == old(daoInstance)
      ensures old(daoInstance) == null ==> fresh(dao)
      ensures schema == old(schema) && master == old(master)
      ensures teachers == old(teachers) && students == old(students)
      ensures sessions == old(sessions) && recordings == old(recordings)
    {
      if daoInstance == null {
        daoInstance := new DebateFeedbackDao(this);
      }
      dao := daoInstance;
    }
  }

  class DebateFeedbackDao {
    const db: DebateFeedbackDatabase

    constructor(db: DebateFeedbackDatabase)
      ensures this.db == db
    {
      this.db := db;
    }

    /** Nothing but the students table changed. */
    twostate predicate OnlyStudents()
      reads db
    {
      && db.schema == old(db.schema) && db.master == old(db.master) && db.daoInstance == old(db.daoInstance)
      && db.teachers == old(db.teachers) && db.sessions == old(db.sessions) && db.recordings == old(db.recordings)
    }

    /** Nothing but the recordings table changed. */
    twostate predicate OnlyRecordings()
      reads db
    {
      && db.schema == old(db.schema) && db.master == old(db.master) && db.daoInstance == old(db.daoInstance)
      && db.teachers == old(db.teachers) && db.sessions == old(db.sessions) && db.students == old(db.students)
    }

    /** Nothing but the sessions table changed. */
    twostate predicate OnlySessions()
      reads db
    {
      && db.schema == old(db.schema) && db.master == old(db.master) && db.daoInstance == old(db.daoInstance)
      && db.teachers == old(db.teachers) && db.recordings == old(db.recordings) && db.students == old(db.students)
    }

    /** Nothing but the teachers table changed. */
    twostate predicate OnlyTeachers()
      reads db
    {
      && db.schema == old(db.schema) && db.master == old(db.master) && db.daoInstance == old(db.daoInstance)
      && db.sessions == old(db.sessions) && db.recordings == old(db.recordings) && db.students == old(db.students)
    }

    // ------------------------------------------------------------- writes

    /** `upsertSession`: insert or replace the row with the session's id. */
    method UpsertSession(session: DebateSession)
      requires db.Valid()
      modifies db
      ensures db.Valid() && OnlySessions()
      ensures db.sessions == old(db.sessions)[session.id := EncodeSession(session)]
    {
      db.sessions := db.sessions[session.id := EncodeSession(session)];
    }

    /** `upsertTeacher`: insert or replace the row with the teacher's id. */
    method UpsertTeacher(teacher: Teacher)
      requires db.Valid()
      modifies db
      ensures db.Valid() && OnlyTeachers()
      ensures db.teachers == old(db.teachers)[teacher.id := EncodeTeacher(teacher)]
    {
      db.teachers := db.teachers[teacher.id := EncodeTeacher(teacher)];
    }

    /** `upsertStudents`: the insertion adapter inserts-or-replaces each student in list order. */
    method UpsertStudents(students: seq<Student>)
      requires db.Valid()
      modifies db
      ensures db.Valid() && OnlyStudents()
      ensures db.students == UpsertAll(old(db.students), StudentRows(students), StudentId)
    {
      var rows := StudentRows(students);
      for i := 0 to |rows|
        invariant db.students == UpsertAll(old(db.students), rows[..i], StudentId)
        invariant OnlyStudents()
      {
        assert rows[..i + 1][..i] == rows[..i];
        db.students := db.students[rows[i].id := rows[i]];
      }
      assert rows[..|rows|] == rows;
      UpsertAllKeyed(old(db.students), rows, StudentId);
    }

    /** `upsertRecording`: insert or replace one recording. */
    method UpsertRecording(recording: SpeechRecording)
      requires db.Valid()
      modifies db
      ensures db.Valid() && OnlyRecordings()
      ensures db.recordings == old(db.recordings)[recording.id := EncodeRecording(recording)]
    {
      db.recordings := db.recordings[recording.id := EncodeRecording(recording)];
    }

    /** `upsertRecordings`: insert or replace each recording in list order. */
    method UpsertRecordings(recordings: seq<SpeechRecording>)
      requires db.Valid()
      modifies db
      ensures db.Valid() && OnlyRecordings()
      ensures db.recordings == UpsertAll(old(db.recordings), RecordingRows(recordings), RecordingId)
    {
      var rows := RecordingRows(recordings);
      for i := 0 to |rows|
        invariant db.recordings == UpsertAll(old(db.recordings), rows[..i], RecordingId)
        invariant OnlyRecordings()
      {
        assert rows[..i + 1][..i] == rows[..i];
        db.recordings := db.recordings[rows[i].id := rows[i]];
      }
      assert rows[..|rows|] == rows;
      UpsertAllKeyed(old(db.recordings), rows, RecordingId);
    }

    /**
     * `updateRecording`: `UPDATE ... WHERE id = ?` replaces the matching row;
     * with no matching row nothing changes (the affected-row count is discarded).
     */
    method UpdateRecording(recording: SpeechRecording)
      requires db.Valid()
      modifies db
      ensures db.Valid() && OnlyRecordings()
      ensures recording.id in old(db.recordings) ==> db.recordings == old(db.recordings)[recording.id := EncodeRecording(recording)]
      ensures recording.id !in old(db.recordings) ==> db.recordings == old(db.recordings)
    {
      if recording.id in db.recordings {
        db.recordings := db.recordings[recording.id := EncodeRecording(recording)];
      }
    }

    /** `deleteRecording`: `DELETE ... WHERE id = ?` with the entity's id; an absent id is a no-op. */
    method DeleteRecording(recording: SpeechRecording)
      requires db.Valid()
      modifies db
      ensures db.Valid() && OnlyRecordings()
      ensures db.recordings == old(db.recordings) - {recording.id}
    {
      db.recordings := db.recordings - {recording.id};
    }

    /** `deleteStudentsForSession`. */
    method DeleteStudentsForSession(sessionId: string)
      requires db.Valid()
      modifies db
      ensures db.Valid() && OnlyStudents()
      ensures db.students == DeleteStudentsOf(old(db.students), sessionId)
    {
      db.students := DeleteStudentsOf(db.students, sessionId);
    }

    /** `deleteRecordings`. */
    method DeleteRecordings(sessionId: string)
      requires db.Valid()
      modifies db
      ensures db.Valid() && OnlyRecordings()
      ensures db.recordings == DeleteRecordingsOf(old(db.recordings), sessionId)
    {
      db.recordings := DeleteRecordingsOf(db.recordings, sessionId);
    }

    /** `clearTeachers`: `DELETE FROM teachers`. */
    method ClearTeachers()
      requires db.Valid()
      modifies db
      ensures db.Valid() && OnlyTeachers()
      ensures db.teachers == map[]
    {
      db.teachers := map[];
    }

    /** `replaceStudents`: one transaction that deletes the session's students, then upserts the list. */
    method ReplaceStudents(sessionId: string, students: seq<Student>)
      requires db.Valid()
      modifies db
      ensures db.Valid() && OnlyStudents()
      ensures db.students == Store.ReplaceStudents(old(db.students), sessionId, students)
    {
      DeleteStudentsForSession(sessionId);
      UpsertStudents(students);
    }

    /** `replaceRecordings`: one transaction that deletes the session's recordings, then upserts the list. */
    method ReplaceRecordings(sessionId: string, recordings: seq<SpeechRecording>)
      requires db.Valid()
      modifies db
      ensures db.Valid() && OnlyRecordings()
      ensures db.recordings == Store.ReplaceRecordings(old(db.recordings), sessionId, recordings)
    {
      DeleteRecordings(sessionId);
      UpsertRecordings(recordings);
    }

    // ------------------------------------------------------------ queries

    /** `getSession`: the session with that id, null when there is none; a corrupt row throws. */
    function GetSession(id: string): (r: Result<Option<DebateSession>>)
      reads db
      requires db.Valid()
      ensures r == Success(None) <==> id !in db.sessions
      ensures r.Success? && r.value.Some? ==>
        (id in db.sessions && r.value.value.id == id && DecodeSession(db.sessions[id]) == Success(r.value.value))
      ensures r.Failure? <==> id in db.sessions && DecodeSession(db.sessions[id]).Failure?
    {
      if id !in db.sessions then Success(None)
      else match DecodeSession(db.sessions[id])
        case Failure(e) => Failure(e)
        case Success(s) => Success(Some(s))
    }

    /** `getTeacher`: `LIMIT 1` on the primary key, null when there is none. */
    function GetTeacher(id: string): (r: Option<Teacher>)
      reads db
      requires db.Valid()
      ensures r.None? <==> id !in db.teachers
      ensures r.Some? ==> r.value.id == id && EncodeTeacher(r.value) == db.teachers[id].(isAdmin := if db.teachers[id].isAdmin != 0 then 1 else 0)
    {
      if id in db.teachers then Some(DecodeTeacher(db.teachers[id])) else None
    }

    /** `observeSessions`: every session, newest `createdAt` first. */
    method ObserveSessions() returns (r: Result<seq<DebateSession>>)
      requires db.Valid()
      ensures r.Success? <==> forall k :: k in db.sessions ==> DecodeSession(db.sessions[k]).Success?
      ensures r.Success? ==>
        && |r.value| == |db.sessions|
        && (forall k :: k in db.sessions <==> k in SessionIds(r.value))
        && (forall i, j :: 0 <= i < j < |r.value| ==> r.value[i].id != r.value[j].id)
        && (forall i, j :: 0 <= i < j < |r.value| ==> r.value[i].createdAt >= r.value[j].createdAt)
        && (forall i :: 0 <= i < |r.value| ==> DecodeSession(db.sessions[r.value[i].id]) == Success(r.value[i]))
    {
      var ids := SelectOrdered(db.sessions, db.sessions.Keys, SessionCreatedAt, false);
      r := DecodeAll(db.sessions, ids, DecodeSession);
      if r.Success? {
        assert SessionIds(r.value) == ids;
      } else {
        var i :| 0 <= i < |ids| && DecodeSession(db.sessions[ids[i]]) == Failure(r.error);
      }
    }

    /** `getStudentsForSession`: the session's students, oldest `createdAt` first. */
    method GetStudentsForSession(sessionId: string) returns (r: Result<seq<Student>>)
      requires db.Valid()
      ensures r.Success? <==> forall k :: k in db.students && db.students[k].sessionId == Some(sessionId) ==> DecodeStudent(db.students[k]).Success?
      ensures r.Success? ==>
        && (forall k :: k in db.students && db.students[k].sessionId == Some(sessionId) <==> k in StudentIds(r.value))
        && (forall i, j :: 0 <= i < j < |r.value| ==> r.value[i].id != r.value[j].id)
        && (forall i, j :: 0 <= i < j < |r.value| ==> r.value[i].createdAt <= r.value[j].createdAt)
        && (forall i :: 0 <= i < |r.value| ==> DecodeStudent(db.students[r.value[i].id]) == Success(r.value[i]))
    {
      var selected := set k | k in db.students && db.students[k].sessionId == Some(sessionId);
      var ids := SelectOrdered(db.students, selected, StudentCreatedAt, true);
      r := DecodeAll(db.students, ids, DecodeStudent);
      if r.Success? {
        assert StudentIds(r.value) == ids;
        forall k | k in selected ensures DecodeStudent(db.students[k]).Success? {
          var i :| 0 <= i < |ids| && ids[i] == k;
        }
      } else {
        var i :| 0 <= i < |ids| && DecodeStudent(db.students[ids[i]]) == Failure(r.error);
        assert ids[i] in selected;
      }
    }

    /**
     * `getRecordings`, and the query `observeRecordings` re-runs on every
     * change: the session's recordings, oldest `recordedAt` first.
     */
    method GetRecordings(sessionId: string) returns (r: Result<seq<SpeechRecording>>)
      requires db.Valid()
      ensures r.Success? <==> forall k :: k in db.recordings && db.recordings[k].debateSessionId == sessionId ==> DecodeRecording(db.recordings[k]).Success?
      ensures r.Success? ==>
        && (forall k :: k in db.recordings && db.recordings[k].debateSessionId == sessionId <==> k in RecordingIds(r.value))
        && (forall i, j :: 0 <= i < j < |r.value| ==> r.value[i].id != r.value[j].id)
        && (forall i, j :: 0 <= i < j < |r.value| ==> r.value[i].recordedAt <= r.value[j].recordedAt)
        && (forall i :: 0 <= i < |r.value| ==> r.value[i].debateSessionId == sessionId)
        && (forall i :: 0 <= i < |r.value| ==> DecodeRecording(db.recordings[r.value[i].id]) == Success(r.value[i]))
    {
      var selected := set k | k in db.recordings && db.recordings[k].debateSessionId == sessionId;
      var ids := SelectOrdered(db.recordings, selected, RecordingRecordedAt, true);
      r := DecodeAll(db.recordings, ids, DecodeRecording);
      if r.Success? {
        assert RecordingIds(r.value) == ids;
        forall k | k in selected ensures DecodeRecording(db.recordings[k]).Success? {
          var i :| 0 <= i < |ids| && ids[i] == k;
        }
      } else {
        var i :| 0 <= i < |ids| && DecodeRecording(db.recordings[ids[i]]) == Failure(r.error);
        assert ids[i] in selected;
      }
    }
  }
}
