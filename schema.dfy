/**
 * The Room schema of the Android store: the four entity tables as Room's
 * `TableInfo` describes them, the `CREATE TABLE IF NOT EXISTS` step, and
 * `onValidateSchema`, which compares the tables found on disk against the
 * expected ones in a fixed order and reports the first mismatch.
 */
module Schema {
  import opened Wrappers

  /** A column: name, SQLite type affinity, NOT NULL, and 1-based position in the primary key (0 if none). */
  datatype Column = Column(name: string, affinity: string, notNull: bool, primaryKeyPosition: nat)

  /** Room's `TableInfo`; foreign keys and indices are kept by description only. */
  datatype TableInfo = TableInfo(name: string, columns: map<string, Column>, foreignKeys: set<string>, indices: set<string>)

  function Text(name: string, notNull: bool): Column { Column(name, "TEXT", notNull, 0) }
  function Integer(name: string): Column { Column(name, "INTEGER", true, 0) }
  function PrimaryId(): Column { Column("id", "TEXT", true, 1) }

  const TeachersTable := TableInfo("teachers", map[
    "id" := PrimaryId(), "name" := Text("name", true), "deviceId" := Text("deviceId", true),
    "authToken" := Text("authToken", false), "isAdmin" := Integer("isAdmin"),
    "createdAt" := Integer("createdAt")], {}, {})

  const StudentsTable := TableInfo("students", map[
    "id" := PrimaryId(), "name" := Text("name", true), "level" := Text("level", true),
    "createdAt" := Integer("createdAt"), "sessionId" := Text("sessionId", false)], {}, {})

  const SessionsTable := TableInfo("debate_sessions", map[
    "id" := PrimaryId(), "motion" := Text("motion", true), "format" := Text("format", true),
    "studentLevel" := Text("studentLevel", true), "speechTimeSeconds" := Integer("speechTimeSeconds"),
    "replyTimeSeconds" := Column("replyTimeSeconds", "INTEGER", false, 0),
    "createdAt" := Integer("createdAt"), "isGuestMode" := Integer("isGuestMode"),
    "teacherId" := Text("teacherId", false), "classId" := Text("classId", false),
    "scheduleId" := Text("scheduleId", false), "backendDebateId" := Text("backendDebateId", false),
    "teamComposition" := Text("teamComposition", false)], {}, {})

  const RecordingsTable := TableInfo("speech_recordings", map[
    "id" := PrimaryId(), "speakerName" := Text("speakerName", true),
    "speakerPosition" := Text("speakerPosition", true), "studentId" := Text("studentId", false),
    "localFilePath" := Text("localFilePath", true), "durationSeconds" := Integer("durationSeconds"),
    "recordedAt" := Integer("recordedAt"), "uploadStatus" := Text("uploadStatus", true),
    "processingStatus" := Text("processingStatus", true),
    "transcriptionStatus" := Text("transcriptionStatus", true),
    "feedbackStatus" := Text("feedbackStatus", true), "feedbackUrl" := Text("feedbackUrl", false),
    "speechId" := Text("speechId", false), "feedbackContent" := Text("feedbackContent", false),
    "transcriptUrl" := Text("transcriptUrl", false), "transcriptText" := Text("transcriptText", false),
    "transcriptionErrorMessage" := Text("transcriptionErrorMessage", false),
    "feedbackErrorMessage" := Text("feedbackErrorMessage", false),
    "uploadProgress" := Column("uploadProgress", "REAL", true, 0),
    "debateSessionId" := Text("debateSessionId", true)], {}, {})

  /** The expected tables in the order `onValidateSchema` checks them. */
  const EntityTables: seq<TableInfo> := [TeachersTable, StudentsTable, SessionsTable, RecordingsTable]

  /** The first line of the failure message for each table, in the same order. */
  const EntityLabels: seq<string> := [
    "teachers(com.debatefeedback.domain.model.Teacher)",
    "students(com.debatefeedback.domain.model.Student)",
    "debate_sessions(com.debatefeedback.domain.model.DebateSession)",
    "speech_recordings(com.debatefeedback.domain.model.SpeechRecording)"]

  /** The identity hash `createAllTables` records in the master table under id 42. */
  const IdentityHash := "2ea67e3f62b4a7392ce60481636118ca"
  const MasterId := 42

  /** Every table has a NOT NULL TEXT `id` as its sole primary key, and none declares foreign keys or indices. */
  lemma EntityTablesShape(i: nat)
    requires i < |EntityTables|
    ensures "id" in EntityTables[i].columns && EntityTables[i].columns["id"] == Column("id", "TEXT", true, 1)
    ensures forall c :: c in EntityTables[i].columns && c != "id" ==> EntityTables[i].columns[c].primaryKeyPosition == 0
    ensures EntityTables[i].foreignKeys == {} && EntityTables[i].indices == {}
  {
    if i == 0 {
      TeachersIdKeyed();
    } else if i == 1 {
      StudentsIdKeyed();
    } else if i == 2 {
      SessionsIdKeyed();
    } else {
      RecordingsIdKeyed();
    }
  }

  /** A table keyed by its `id` column alone, with no foreign keys or indices. */
  predicate IdKeyed(t: TableInfo)
  {
    && "id" in t.columns && t.columns["id"] == Column("id", "TEXT", true, 1)
    && (forall c :: c in t.columns && c != "id" ==> t.columns[c].primaryKeyPosition == 0)
    && t.foreignKeys == {} && t.indices == {}
  }

  lemma TeachersIdKeyed()
    ensures IdKeyed(TeachersTable)
  {
  }

  lemma StudentsIdKeyed()
    ensures IdKeyed(StudentsTable)
  {
  }

  lemma SessionsIdKeyed()
    ensures IdKeyed(SessionsTable)
  {
  }

  lemma RecordingsIdKeyed()
    ensures IdKeyed(RecordingsTable)
  {
  }

  /** Nullability of the recording columns: the session link and progress are required, the artefacts optional. */
  lemma RecordingNullability()
    ensures RecordingsTable.columns["debateSessionId"].notNull && RecordingsTable.columns["uploadProgress"].notNull
    ensures !RecordingsTable.columns["studentId"].notNull
    ensures (forall c :: c in {"feedbackUrl", "speechId", "feedbackContent", "transcriptUrl", "transcriptText",
                               "transcriptionErrorMessage", "feedbackErrorMessage"}
               ==> c in RecordingsTable.columns && !RecordingsTable.columns[c].notNull)
  {
  }

  /** `TableInfo.read`: a table that does not exist reads as one with no columns. */
  function ReadTable(existing: map<string, TableInfo>, name: string): (t: TableInfo)
    ensures name !in existing ==> t.columns == map[] && t.name == name
    ensures name in existing ==> t == existing[name]
  {
    if name in existing then existing[name] else TableInfo(name, map[], {}, {})
  }

  predicate TableMatches(existing: map<string, TableInfo>, i: nat)
    requires i < |EntityTables|
  {
    ReadTable(existing, EntityTables[i].name) == EntityTables[i]
  }

  datatype ValidationResult = ValidationResult(isValid: bool, message: Option<string>)

  /** `onValidateSchema`: the first table, in check order, that differs from its expected form is reported. */
  function ValidateSchema(existing: map<string, TableInfo>): (r: ValidationResult)
    ensures r.isValid <==> forall i :: 0 <= i < |EntityTables| ==> TableMatches(existing, i)
    ensures r.isValid <==> r.message.None?
    ensures !r.isValid ==> (exists i :: 0 <= i < |EntityTables| && !TableMatches(existing, i)
                             && (forall j :: 0 <= j < i ==> TableMatches(existing, j)) && r.message == Some(EntityLabels[i]))
  {
    var k := FirstMismatch(existing);
    if k < |EntityTables| then ValidationResult(false, Some(EntityLabels[k])) else ValidationResult(true, None)
  }

  /** The index of the first table, in check order, that differs from its expected form; 4 when none does. */
  function FirstMismatch(existing: map<string, TableInfo>): (k: nat)
    ensures k <= |EntityTables|
    ensures forall j :: 0 <= j < k ==> TableMatches(existing, j)
    ensures k < |EntityTables| ==> !TableMatches(existing, k)
  {
    if !TableMatches(existing, 0) then 0
    else if !TableMatches(existing, 1) then 1
    else if !TableMatches(existing, 2) then 2
    else if !TableMatches(existing, 3) then 3
    else 4
  }

  /** `CREATE TABLE IF NOT EXISTS` for each entity table: an existing table is kept as it is. */
  function CreateIfNotExists(existing: map<string, TableInfo>, t: TableInfo): (r: map<string, TableInfo>)
    ensures t.name in r && (t.name in existing ==> r[t.name] == existing[t.name])
    ensures t.name !in existing ==> r[t.name] == t
    ensures forall n :: n != t.name ==> (n in r <==> n in existing) && (n in existing ==> r[n] == existing[n])
  {
    if t.name in existing then existing else existing[t.name := t]
  }

  /** The four `CREATE TABLE IF NOT EXISTS` statements of `createAllTables`, in order. */
  function CreateAllTables(existing: map<string, TableInfo>): map<string, TableInfo>
  {
    CreateIfNotExists(CreateIfNotExists(CreateIfNotExists(CreateIfNotExists(existing,
      TeachersTable), StudentsTable), SessionsTable), RecordingsTable)
  }

  /** An entity table that already exists in the expected form, or not at all. */
  predicate Compatible(existing: map<string, TableInfo>)
  {
    forall i :: 0 <= i < |EntityTables| ==> EntityTables[i].name in existing ==> existing[EntityTables[i].name] == EntityTables[i]
  }

  /**
   * Creating the tables over a store whose entity tables are absent or
   * already correct yields a schema that validates; in particular a fresh
   * store validates after `createAllTables`.
   */
  lemma CreatedSchemaValidates(existing: map<string, TableInfo>)
    requires Compatible(existing)
    ensures ValidateSchema(CreateAllTables(existing)).isValid
  {
    forall i | 0 <= i < |EntityTables| ensures TableMatches(CreateAllTables(existing), i) {
      CreatedTableMatches(existing, i);
    }
  }

  /** One entity table of a compatible store matches after `createAllTables`. */
  lemma CreatedTableMatches(existing: map<string, TableInfo>, i: nat)
    requires Compatible(existing) && i < |EntityTables|
    ensures TableMatches(CreateAllTables(existing), i)
  {
    CreateAllTablesAt(existing, i);
    assert EntityTables[i].name in existing ==> existing[EntityTables[i].name] == EntityTables[i];
  }

  /** After `createAllTables` each entity table is the one found, or the created one. */
  lemma CreateAllTablesAt(existing: map<string, TableInfo>, i: nat)
    requires i < |EntityTables|
    ensures var n := EntityTables[i].name;
      n in CreateAllTables(existing)
      && CreateAllTables(existing)[n] == (if n in existing then existing[n] else EntityTables[i])
  {
    var e1 := CreateIfNotExists(existing, TeachersTable);
    var e2 := CreateIfNotExists(e1, StudentsTable);
    var e3 := CreateIfNotExists(e2, SessionsTable);
    assert TeachersTable.name == "teachers" && StudentsTable.name == "students";
    assert SessionsTable.name == "debate_sessions" && RecordingsTable.name == "speech_recordings";
  }

  /** A table of the expected name but the wrong shape is created over nothing: validation reports it. */
  lemma StaleTableFailsValidation(existing: map<string, TableInfo>)
    requires "teachers" in existing && existing["teachers"] != TeachersTable
    ensures ValidateSchema(CreateAllTables(existing)) == ValidationResult(false, Some("teachers(com.debatefeedback.domain.model.Teacher)"))
  {
    assert !TableMatches(CreateAllTables(existing), 0);
  }
}
