/**
 * The Android `DebateRepository`: the request body sent to create a debate
 * on the backend (teams keyed by the format's sides, each speaker named from
 * the local students), and the store sequences behind saving, deleting and
 * linking a session to its backend debate. The network call itself is an
 * input: its response is passed in.
 */
module Repository {
  import opened Wrappers
  import opened Text
  import opened Formats
  import opened Models
  import opened Store
  import opened Room

  datatype StudentData = StudentData(name: string, position: string)

  datatype TeamsData = TeamsData(
    prop: Option<seq<StudentData>>, opp: Option<seq<StudentData>>,
    og: Option<seq<StudentData>>, oo: Option<seq<StudentData>>,
    cg: Option<seq<StudentData>>, co: Option<seq<StudentData>>)

  datatype CreateDebateRequest = CreateDebateRequest(
    motion: string, format: string, studentLevel: string, speechTimeSeconds: int,
    teams: TeamsData, classId: Option<string>, scheduleId: Option<string>)

  /** The backend answers with `debate_id` or `debateId`. */
  datatype CreateDebateResponse = CreateDebateResponse(debateIdSnake: Option<string>, debateId: Option<string>)
  {
    /** `resolvedId`: the snake-case id, else the camel-case id, else the empty string; never null. */
    function ResolvedId(): (r: string)
      ensures debateIdSnake.Some? ==> r == debateIdSnake.value
      ensures debateIdSnake.None? && debateId.Some? ==> r == debateId.value
      ensures debateIdSnake.None? && debateId.None? ==> r == ""
    {
      debateIdSnake.Or(debateId).GetOr("")
    }
  }

  /** `students.firstOrNull { it.id == studentId }?.name ?: "Unknown"`. */
  function NameFor(students: seq<Student>, studentId: string): (r: string)
    ensures (forall i :: 0 <= i < |students| ==> students[i].id != studentId) ==> r == "Unknown"
    ensures forall i :: (0 <= i < |students| && students[i].id == studentId
                         && (forall j :: 0 <= j < i ==> students[j].id != studentId)) ==> r == students[i].name
  {
    if |students| == 0 then "Unknown"
    else if students[0].id == studentId then students[0].name
    else NameFor(students[1..], studentId)
  }

  /** `mapStudents`: null stays null; otherwise one entry per id, positioned "<prefix> <index+1>". */
  function MapStudents(ids: Option<seq<string>>, prefix: string, students: seq<Student>): (r: Option<seq<StudentData>>)
    ensures r.None? <==> ids.None?
    ensures r.Some? ==> |r.value| == |ids.value|
    ensures r.Some? ==> forall i :: 0 <= i < |r.value| ==>
      r.value[i] == StudentData(NameFor(students, ids.value[i]), prefix + " " + NatToString(i + 1))
  {
    match ids
    case None => None
    case Some(xs) =>
      Some(seq(|xs|, i requires 0 <= i < |xs| => StudentData(NameFor(students, xs[i]), prefix + " " + NatToString(i + 1))))
  }

  /** `buildTeamsData`: only the sides of the format are filled; AP sends its Gov side as `prop`. */
  function BuildTeamsData(comp: TeamComposition, format: DebateFormat, students: seq<Student>): (t: TeamsData)
    ensures format.Structure() == PropOpp ==>
      t == TeamsData(MapStudents(comp.prop, "Prop", students), MapStudents(comp.opp, "Opp", students), None, None, None, None)
    ensures format == Ap ==>
      t == TeamsData(MapStudents(comp.prop, "Gov", students), MapStudents(comp.opp, "Opp", students), None, None, None, None)
    ensures format == Bp ==>
      && t.prop.None? && t.opp.None?
      && t.og == MapStudents(comp.og, "OG", students) && t.oo == MapStudents(comp.oo, "OO", students)
      && t.cg == MapStudents(comp.cg, "CG", students) && t.co == MapStudents(comp.co, "CO", students)
  {
    match format
    case Wsdc | ModifiedWsdc | Australs =>
      TeamsData(MapStudents(comp.prop, "Prop", students), MapStudents(comp.opp, "Opp", students), None, None, None, None)
    case Bp =>
      TeamsData(None, None, MapStudents(comp.og, "OG", students), MapStudents(comp.oo, "OO", students),
        MapStudents(comp.cg, "CG", students), MapStudents(comp.co, "CO", students))
    case Ap =>
      TeamsData(MapStudents(comp.prop, "Gov", students), MapStudents(comp.opp, "Opp", students), None, None, None, None)
  }

  /** The request `createBackendDebate` sends; a session without a composition throws. */
  function CreateRequest(session: DebateSession, students: seq<Student>): (r: Result<CreateDebateRequest>)
    ensures r.Failure? <==> session.teamComposition.None?
    ensures r.Failure? ==> r.error == "Missing team composition"
    ensures r.Success? ==> r.value.format == session.format.DisplayName() && r.value.studentLevel == session.studentLevel.RawValue()
    ensures r.Success? ==> r.value.teams == BuildTeamsData(session.teamComposition.value, session.format, students)
  {
    match session.teamComposition
    case None => Failure("Missing team composition")
    case Some(comp) =>
      LowerNameIsRawValue(session.studentLevel);
      Success(CreateDebateRequest(session.motion, session.format.DisplayName(), Lower(session.studentLevel.Name()),
        session.speechTimeSeconds, BuildTeamsData(comp, session.format, students), session.classId, session.scheduleId))
  }

  /** `response.resolvedId.ifBlank { session.backendDebateId }`: an id blank by Kotlin's `isWhitespace` keeps the old link. */
  function LinkBackendDebate(session: DebateSession, response: CreateDebateResponse): (r: DebateSession)
    ensures !KotlinIsBlank(response.ResolvedId()) ==> r == session.(backendDebateId := Some(response.ResolvedId()))
    ensures KotlinIsBlank(response.ResolvedId()) ==> r == session
  {
    var id := response.ResolvedId();
    if KotlinIsBlank(id) then session.(backendDebateId := session.backendDebateId)
    else session.(backendDebateId := Some(id))
  }

  /** A response without any id never erases a stored backend id. */
  lemma LinkKeepsOldIdWhenAbsent(session: DebateSession)
    ensures LinkBackendDebate(session, CreateDebateResponse(None, None)).backendDebateId == session.backendDebateId
    ensures LinkBackendDebate(session, CreateDebateResponse(Some(" "), None)).backendDebateId == session.backendDebateId
  {
  }

  class DebateRepository {
    const dao: DebateFeedbackDao

    constructor(dao: DebateFeedbackDao)
      ensures this.dao == dao
    {
      this.dao := dao;
    }

    /** `saveSession`: upsert the session, then replace its students; two separate DAO calls. */
    method SaveSession(session: DebateSession, students: seq<Student>)
      requires dao.db.Valid()
      modifies dao.db
      ensures dao.db.Valid()
      ensures dao.db.sessions == old(dao.db.sessions)[session.id := EncodeSession(session)]
      ensures dao.db.students == Store.ReplaceStudents(old(dao.db.students), session.id, students)
      ensures dao.db.recordings == old(dao.db.recordings) && dao.db.teachers == old(dao.db.teachers)
    {
      dao.UpsertSession(session);
      dao.ReplaceStudents(session.id, students);
    }

    /** `deleteSession`: the session's recordings and students go; the session row itself stays. */
    method DeleteSession(session: DebateSession)
      requires dao.db.Valid()
      modifies dao.db
      ensures dao.db.Valid()
      ensures dao.db.recordings == DeleteRecordingsOf(old(dao.db.recordings), session.id)
      ensures dao.db.students == DeleteStudentsOf(old(dao.db.students), session.id)
      ensures dao.db.sessions == old(dao.db.sessions) && dao.db.teachers == old(dao.db.teachers)
    {
      dao.DeleteRecordings(session.id);
      dao.DeleteStudentsForSession(session.id);
    }

    /**
     * `createBackendDebate` with the backend's answer to the request
     * `CreateRequest(session, students)` passed in (the response, or the
     * message of the error the call threw): the session, linked to the
     * returned id, is stored and returned. A missing composition throws
     * before the request is sent, and a failed call stores nothing.
     */
    method CreateBackendDebate(session: DebateSession, students: seq<Student>, response: Result<CreateDebateResponse>)
      returns (r: Result<DebateSession>)
      requires dao.db.Valid()
      modifies dao.db
      ensures dao.db.Valid()
      ensures r.Failure? <==> CreateRequest(session, students).Failure? || response.Failure?
      ensures CreateRequest(session, students).Failure? ==> r == Failure(CreateRequest(session, students).error)
      ensures CreateRequest(session, students).Success? && response.Failure? ==> r == Failure(response.error)
      ensures r.Failure? ==> dao.db.sessions == old(dao.db.sessions)
      ensures r.Success? ==> r.value == LinkBackendDebate(session, response.value)
      ensures r.Success? ==> dao.db.sessions == old(dao.db.sessions)[session.id := EncodeSession(r.value)]
      ensures dao.db.students == old(dao.db.students) && dao.db.recordings == old(dao.db.recordings)
    {
      var request := CreateRequest(session, students);
      if request.Failure? {
        return Failure(request.error);
      }
      if response.Failure? {
        return Failure(response.error);
      }
      var updated := LinkBackendDebate(session, response.value);
      dao.UpsertSession(updated);
      r := Success(updated);
    }
  }
}
