/**
 * The Android debate-setup flow: the three-step wizard of SetupScreen.kt and
 * the SetupViewModel, whose single state holder is replaced by an updated
 * copy on every user action. Students are tagged with a team group; the
 * composition sent to the store lists, per group, the tagged students' ids.
 */
module Setup {
  import opened Wrappers
  import opened Text
  import opened Formats
  import opened Models
  import opened SpeakerOrder
  import Sanitize
  import Store
  import Room
  import Repository

  // ------------------------------------------------------------ the wizard

  datatype SetupStep = BasicInfo | Students | Teams

  /** `previousStep`: back one step; the first step is a fixed point. */
  function PreviousStep(step: SetupStep): (r: SetupStep)
    ensures step == BasicInfo <==> r == step
  {
    match step
    case BasicInfo => BasicInfo
    case Students => BasicInfo
    case Teams => Students
  }

  /** `nextStep`: forward one step; the last step is a fixed point. */
  function NextStep(step: SetupStep): (r: SetupStep)
    ensures step == Teams <==> r == step
  {
    match step
    case BasicInfo => Students
    case Students => Teams
    case Teams => Teams
  }

  /** The two step functions undo each other away from their fixed points. */
  lemma StepsInverse(step: SetupStep)
    ensures step != Teams ==> PreviousStep(NextStep(step)) == step
    ensures step != BasicInfo ==> NextStep(PreviousStep(step)) == step
  {
  }

  /** What the primary button does: navigate forward, or on the teams step create the debate. */
  datatype PrimaryAction = NavigateTo(step: SetupStep) | CreateDebate

  function PrimaryButton(step: SetupStep): (a: PrimaryAction)
    ensures a.CreateDebate? <==> step == Teams
    ensures a.NavigateTo? ==> a.step == NextStep(step) && a.step != step
  {
    if step != Teams then NavigateTo(NextStep(step)) else CreateDebate
  }

  /** The back button is shown off the first step and leads to the previous one. */
  function BackButton(step: SetupStep): (r: Option<SetupStep>)
    ensures r.None? <==> step == BasicInfo
    ensures r.Some? ==> NextStep(r.value) == step
  {
    if step != BasicInfo then Some(PreviousStep(step)) else None
  }

  // ----------------------------------------------------------- team groups

  datatype TeamGroup = Prop | Opp | Og | Oo | Cg | Co
  {
    function DisplayName(): string
    {
      match this
      case Prop => "Proposition"
      case Opp => "Opposition"
      case Og => "Opening Government"
      case Oo => "Opening Opposition"
      case Cg => "Closing Government"
      case Co => "Closing Opposition"
    }

    /** `allowedFor`: the two-team groups for WSDC, Modified WSDC, Australs and AP; the four BP groups for BP. */
    predicate AllowedFor(format: DebateFormat)
    {
      match format
      case Wsdc | ModifiedWsdc | Australs => this == Prop || this == Opp
      case Ap => this == Prop || this == Opp
      case Bp => this == Og || this == Oo || this == Cg || this == Co
    }
  }

  /** `optionsFor`: the groups offered for a format, in display order. */
  function OptionsFor(format: DebateFormat): (r: seq<TeamGroup>)
    ensures forall i, j :: 0 <= i < j < |r| ==> r[i] != r[j]
  {
    match format
    case Wsdc | ModifiedWsdc | Australs => [Prop, Opp]
    case Ap => [Prop, Opp]
    case Bp => [Og, Oo, Cg, Co]
  }

  /** A group is offered exactly when it is allowed. */
  lemma OptionsIffAllowed(format: DebateFormat, g: TeamGroup)
    ensures g in OptionsFor(format) <==> g.AllowedFor(format)
  {
  }

  // --------------------------------------------------------------- state

  datatype StudentEntry = StudentEntry(student: Student, group: Option<TeamGroup>)

  datatype SetupUiState = SetupUiState(
    motion: string, format: DebateFormat, studentLevel: StudentLevel,
    speechTimeSeconds: int, includeReplySpeeches: bool, replyTimeSeconds: Option<int>,
    newStudentName: string, studentEntries: seq<StudentEntry>, currentStep: SetupStep,
    isCreating: bool, errorMessage: Option<string>)

  /** `SetupUiState()` with its declared defaults: WSDC with its reply time, no students, first step. */
  const InitialState := SetupUiState("", Wsdc, Secondary, 480, true, Some(240), "", [], BasicInfo, false, None)

  lemma InitialStateDefaults()
    ensures InitialState.speechTimeSeconds == Wsdc.DefaultSpeechTime()
    ensures InitialState.replyTimeSeconds == Wsdc.DefaultReplyTime()
  {
  }

  const MotionMin := 5
  const MotionMax := 200
  const SpeakerMin := 2
  const SpeechTimeMin := 60
  const SpeechTimeMax := 900
  const InvalidMotion := "Please enter a valid motion (5-200 characters)."
  const NoStudents := "Please add at least one student"
  const IncompleteTeams := "Please assign all students to teams."

  /**
   * `motion.take(MOTION_MAX)`: Kotlin counts UTF-16 units, so a motion of
   * astral characters keeps only half as many of them.
   */
  function TakeMotion(motion: string): (r: string)
    ensures r <= motion && Utf16Length(r) <= MotionMax
    ensures Utf16Length(motion) <= MotionMax ==> r == motion
    ensures Utf16Length(motion) > MotionMax ==> Utf16Length(r) >= MotionMax - 1
    ensures (forall i :: 0 <= i < |motion| ==> !IsAstral(motion[i])) ==>
              r == motion[..if |motion| <= MotionMax then |motion| else MotionMax]
  {
    if forall i :: 0 <= i < |motion| ==> !IsAstral(motion[i]) then
      TakeUtf16OfBmp(motion, MotionMax);
      TakeUtf16(motion, MotionMax)
    else
      TakeUtf16(motion, MotionMax)
  }

  /** `seconds.coerceIn(SPEECH_TIME_MIN, SPEECH_TIME_MAX)`. */
  function ClampSpeechTime(seconds: int): (r: int)
    ensures SpeechTimeMin <= r <= SpeechTimeMax
    ensures SpeechTimeMin <= seconds <= SpeechTimeMax ==> r == seconds
    ensures seconds < SpeechTimeMin ==> r == SpeechTimeMin
    ensures seconds > SpeechTimeMax ==> r == SpeechTimeMax
  {
    if seconds < SpeechTimeMin then SpeechTimeMin else if seconds > SpeechTimeMax then SpeechTimeMax else seconds
  }

  /** The entries after `selectFormat`: a group the format does not allow is cleared. */
  function ClearDisallowed(entries: seq<StudentEntry>, format: DebateFormat): (r: seq<StudentEntry>)
    ensures |r| == |entries|
    ensures forall i :: 0 <= i < |r| ==> r[i].student == entries[i].student
    ensures forall i :: 0 <= i < |r| && r[i].group.Some? ==> r[i] == entries[i] && r[i].group.value.AllowedFor(format)
    ensures forall i :: 0 <= i < |r| && (entries[i].group.None? || entries[i].group.value.AllowedFor(format)) ==> r[i] == entries[i]
  {
    seq(|entries|, i requires 0 <= i < |entries| =>
      var e := entries[i];
      if e.group.Some? && !e.group.value.AllowedFor(format) then e.(group := None) else e)
  }

  /** `filterNot { it.student.id == id }`. */
  function RemoveEntries(entries: seq<StudentEntry>, id: string): (r: seq<StudentEntry>)
    ensures forall e :: e in r <==> e in entries && e.student.id != id
    ensures (forall i :: 0 <= i < |entries| ==> entries[i].student.id != id) ==> r == entries
    ensures |r| <= |entries|
  {
    if entries == [] then []
    else if entries[0].student.id == id then RemoveEntries(entries[1..], id)
    else [entries[0]] + RemoveEntries(entries[1..], id)
  }

  /** `assignStudent`: entries with that id get the group; every other entry is unchanged. */
  function AssignEntries(entries: seq<StudentEntry>, studentId: string, group: Option<TeamGroup>): (r: seq<StudentEntry>)
    ensures |r| == |entries|
    ensures forall i :: 0 <= i < |r| && entries[i].student.id == studentId ==> r[i] == entries[i].(group := group)
    ensures forall i :: 0 <= i < |r| && entries[i].student.id != studentId ==> r[i] == entries[i]
  {
    seq(|entries|, i requires 0 <= i < |entries| =>
      if entries[i].student.id == studentId then entries[i].(group := group) else entries[i])
  }

  // ---------------------------------------------------------- validation

  /**
   * The private `isValidMotion` applied to the already trimmed motion. Both
   * trims are Kotlin's `String.trim()`, which strips `Char.isWhitespace`,
   * and the length is Kotlin's, in UTF-16 units.
   */
  predicate MotionPasses(motion: string)
  {
    var trimmed := KotlinTrim(KotlinTrim(motion));
    MotionMin <= Utf16Length(trimmed) <= MotionMax
  }

  /** The second trim finds nothing left to strip: the check is on the length of one Kotlin trim. */
  lemma MotionPassesTrimsOnce(motion: string)
    ensures MotionPasses(motion) <==> MotionMin <= Utf16Length(KotlinTrim(motion)) <= MotionMax
  {
    TrimSetIdempotent(motion, KotlinWhitespace);
  }

  /**
   * On motions free of astral characters and of the characters the two
   * platforms classify differently, the Android check agrees with the iOS
   * `isValidMotion`.
   */
  lemma MotionCheckMatchesIos(motion: string)
    requires forall i :: 0 <= i < |motion| ==> !WhitespaceDiffers(motion[i]) && !IsAstral(motion[i])
    ensures MotionPasses(motion) <==> Sanitize.IsValidMotion(motion)
  {
    TrimSetIdempotent(motion, KotlinWhitespace);
    KotlinTrimAgrees(motion);
    TrimSetWithin(motion, KotlinWhitespace);
  }

  /**
   * Astral characters count twice on Android and once on iOS: 120 emoji
   * are too long a motion for Kotlin and a valid one for Foundation.
   */
  lemma AstralMotionDisagrees()
    ensures var emoji := seq(120, _ => '\U{1F600}');
            !MotionPasses(emoji) && Sanitize.IsValidMotion(emoji)
  {
    var emoji := seq(120, _ => '\U{1F600}');
    TrimSetOfTrimmed(emoji, KotlinWhitespace);
    MotionPassesTrimsOnce(emoji);
    TrimSetOfTrimmed(emoji, BlanksAndNewlines);
  }

  /**
   * Where the whitespace sets differ, so do the two checks. Five
   * information separators are blank to Kotlin but a valid motion to
   * Foundation.
   */
  lemma SeparatorMotionDisagrees()
    ensures var seps := "\U{001C}\U{001C}\U{001C}\U{001C}\U{001C}";
            !MotionPasses(seps) && Sanitize.IsValidMotion(seps)
  {
    var seps := "\U{001C}\U{001C}\U{001C}\U{001C}\U{001C}";
    KotlinTrimOfBlank(seps);
    MotionPassesTrimsOnce(seps);
    TrimSetOfTrimmed(seps, BlanksAndNewlines);
  }

  /** A leading NEXT LINE counts towards the Android length but is trimmed away on iOS. */
  lemma NextLineMotionDisagrees()
    ensures var nel := "\U{0085}abcd";
            MotionPasses(nel) && !Sanitize.IsValidMotion(nel)
  {
    var nel := "\U{0085}abcd";
    TrimSetOfTrimmed(nel, KotlinWhitespace);
    MotionPassesTrimsOnce(nel);
    TrimSetOfTrimmed(nel[1..], BlanksAndNewlines);
    assert DropLeading(nel, BlanksAndNewlines) == DropLeading(nel[1..], BlanksAndNewlines);
  }

  /**
   * `validate`: the motion, then the presence of students, then that every
   * student has a group; the first failing check gives the message.
   */
  function Validate(state: SetupUiState): (r: Option<string>)
    ensures r.None? <==> MotionPasses(state.motion) && state.studentEntries != [] && AllAssigned(state.studentEntries)
    ensures !MotionPasses(state.motion) ==> r == Some(InvalidMotion)
    ensures MotionPasses(state.motion) && state.studentEntries == [] ==> r == Some(NoStudents)
    ensures r == Some(IncompleteTeams) <==> (MotionPasses(state.motion) && state.studentEntries != []
                                             && !AllAssigned(state.studentEntries))
  {
    if !MotionPasses(state.motion) then Some(InvalidMotion)
    else if |state.studentEntries| == 0 then Some(NoStudents)
    else if !AllAssigned(state.studentEntries) then Some(IncompleteTeams)
    else None
  }

  /** No entry is left without a group (the negation of `any { it.group == null }`). */
  predicate AllAssigned(entries: seq<StudentEntry>)
  {
    forall i :: 0 <= i < |entries| ==> entries[i].group.Some?
  }

  // ------------------------------------------------------- composition

  function AllIds(entries: seq<StudentEntry>): (r: seq<string>)
    ensures |r| == |entries| && forall i :: 0 <= i < |r| ==> r[i] == entries[i].student.id
  {
    seq(|entries|, i requires 0 <= i < |entries| => entries[i].student.id)
  }

  /** The ids of the entries in `group`, in entry order. */
  function IdsFor(entries: seq<StudentEntry>, group: TeamGroup): (r: seq<string>)
    ensures |r| <= |entries|
  {
    if entries == [] then []
    else
      var rest := IdsFor(entries[1..], group);
      if entries[0].group == Some(group) then [entries[0].student.id] + rest else rest
  }

  /** The ids listed for `group` are exactly those of the entries placed in it. */
  lemma {:induction false} IdsForMembers(entries: seq<StudentEntry>, group: TeamGroup)
    ensures forall id :: id in IdsFor(entries, group) <==>
      exists i :: 0 <= i < |entries| && entries[i].group == Some(group) && entries[i].student.id == id
  {
    if entries != [] {
      IdsForMembers(entries[1..], group);
      assert forall i :: 1 <= i < |entries| ==> entries[i] == entries[1..][i - 1];
    }
  }

  /** `takeIf { it.isNotEmpty() }`. */
  function NonEmptyOrNone(xs: seq<string>): (r: Option<seq<string>>)
    ensures OrEmpty(r) == xs
    ensures r.None? <==> xs == []
  {
    if xs == [] then None else Some(xs)
  }

  /** `buildTeamComposition`: one id list per group, absent when the group is empty. */
  function BuildTeamComposition(entries: seq<StudentEntry>): (c: TeamComposition)
    ensures OrEmpty(c.prop) == IdsFor(entries, Prop) && OrEmpty(c.opp) == IdsFor(entries, Opp)
    ensures OrEmpty(c.og) == IdsFor(entries, Og) && OrEmpty(c.oo) == IdsFor(entries, Oo)
    ensures OrEmpty(c.cg) == IdsFor(entries, Cg) && OrEmpty(c.co) == IdsFor(entries, Co)
  {
    TeamComposition(
      NonEmptyOrNone(IdsFor(entries, Prop)), NonEmptyOrNone(IdsFor(entries, Opp)),
      NonEmptyOrNone(IdsFor(entries, Og)), NonEmptyOrNone(IdsFor(entries, Oo)),
      NonEmptyOrNone(IdsFor(entries, Cg)), NonEmptyOrNone(IdsFor(entries, Co)))
  }

  /** Entries all in Prop or Opp split into the two id lists without loss or duplication. */
  lemma {:induction false} TwoTeamPartition(entries: seq<StudentEntry>)
    requires forall i :: 0 <= i < |entries| ==> entries[i].group == Some(Prop) || entries[i].group == Some(Opp)
    ensures multiset(IdsFor(entries, Prop)) + multiset(IdsFor(entries, Opp)) == multiset(AllIds(entries))
  {
    if entries != [] {
      TwoTeamPartition(entries[1..]);
      assert AllIds(entries) == [entries[0].student.id] + AllIds(entries[1..]);
    }
  }

  /** Entries all in the four BP groups split into the four id lists without loss or duplication. */
  lemma {:induction false} FourTeamPartition(entries: seq<StudentEntry>)
    requires forall i :: 0 <= i < |entries| ==> entries[i].group.Some? && entries[i].group.value.AllowedFor(Bp)
    ensures multiset(IdsFor(entries, Og)) + multiset(IdsFor(entries, Oo)) + multiset(IdsFor(entries, Cg))
            + multiset(IdsFor(entries, Co)) == multiset(AllIds(entries))
  {
    if entries != [] {
      var rest := entries[1..];
      assert forall i :: 0 <= i < |rest| ==> rest[i] == entries[i + 1];
      FourTeamPartition(rest);
      FourTeamStep(entries);
    }
  }

  /** The inductive step of `FourTeamPartition`: the first entry joins exactly one of the four lists. */
  lemma FourTeamStep(entries: seq<StudentEntry>)
    requires entries != [] && entries[0].group.Some? && entries[0].group.value.AllowedFor(Bp)
    requires var rest := entries[1..];
      multiset(IdsFor(rest, Og)) + multiset(IdsFor(rest, Oo)) + multiset(IdsFor(rest, Cg)) + multiset(IdsFor(rest, Co))
        == multiset(AllIds(rest))
    ensures multiset(IdsFor(entries, Og)) + multiset(IdsFor(entries, Oo)) + multiset(IdsFor(entries, Cg))
            + multiset(IdsFor(entries, Co)) == multiset(AllIds(entries))
  {
    var rest := entries[1..];
    var id := entries[0].student.id;
    AllIdsCons(entries);
    IdsForCons(entries, Og);
    IdsForCons(entries, Oo);
    IdsForCons(entries, Cg);
    IdsForCons(entries, Co);
    OneGroupGains(entries[0].group.value, multiset{id},
      multiset(IdsFor(rest, Og)), multiset(IdsFor(rest, Oo)), multiset(IdsFor(rest, Cg)), multiset(IdsFor(rest, Co)),
      multiset(IdsFor(entries, Og)), multiset(IdsFor(entries, Oo)), multiset(IdsFor(entries, Cg)), multiset(IdsFor(entries, Co)),
      multiset(AllIds(rest)), multiset(AllIds(entries)));
  }

  /** One step of `AllIds`, as multisets. */
  lemma AllIdsCons(entries: seq<StudentEntry>)
    requires entries != []
    ensures multiset(AllIds(entries)) == multiset{entries[0].student.id} + multiset(AllIds(entries[1..]))
  {
    assert AllIds(entries) == [entries[0].student.id] + AllIds(entries[1..]);
  }

  /** Adding `id` to exactly one of four BP groups adds it once to their union, as it does to the whole. */
  lemma OneGroupGains(g: TeamGroup, id: multiset<string>, og: multiset<string>, oo: multiset<string>, cg: multiset<string>,
                      co: multiset<string>, og': multiset<string>, oo': multiset<string>, cg': multiset<string>,
                      co': multiset<string>, all: multiset<string>, all': multiset<string>)
    requires g.AllowedFor(Bp)
    requires og' == (if g == Og then id else multiset{}) + og && oo' == (if g == Oo then id else multiset{}) + oo
    requires cg' == (if g == Cg then id else multiset{}) + cg && co' == (if g == Co then id else multiset{}) + co
    requires og + oo + cg + co == all && all' == id + all
    ensures og' + oo' + cg' + co' == all'
  {
  }

  /** One step of `IdsFor`, as multisets. */
  lemma IdsForCons(entries: seq<StudentEntry>, g: TeamGroup)
    requires entries != []
    ensures multiset(IdsFor(entries, g))
      == (if entries[0].group == Some(g) then multiset{entries[0].student.id} else multiset{}) + multiset(IdsFor(entries[1..], g))
  {
  }

  /**
   * Once every student has a group the format allows (as `selectFormat`
   * and `validate` ensure), the speaking order built from the composition
   * lists every student exactly once.
   */
  lemma EveryStudentSpeaksOnce(entries: seq<StudentEntry>, format: DebateFormat)
    requires forall i :: 0 <= i < |entries| ==> entries[i].group.Some? && entries[i].group.value.AllowedFor(format)
    ensures multiset(Ids(SpeakerOrderSpec(BuildTeamComposition(entries), format))) == multiset(AllIds(entries))
  {
    var c := BuildTeamComposition(entries);
    SpeakerOrderIds(c, format);
    if format == Bp {
      FourTeamPartition(entries);
    } else {
      TwoTeamPartition(entries);
    }
  }

  /** The session `createDebate` saves, with its id and clock reading passed in. */
  function SessionFor(state: SetupUiState, sessionId: string, now: int): (s: DebateSession)
    ensures s.id == sessionId && s.motion == KotlinTrim(state.motion) && s.format == state.format
    ensures s.teamComposition == Some(BuildTeamComposition(state.studentEntries))
    ensures !s.isGuestMode && s.replyTimeSeconds == state.replyTimeSeconds
  {
    DebateSession(sessionId, KotlinTrim(state.motion), state.format, state.studentLevel, state.speechTimeSeconds,
      state.replyTimeSeconds, now, false, None, None, None, None, Some(BuildTeamComposition(state.studentEntries)))
  }

  /** The students `createDebate` saves: each entry's student, given the chosen level and the session id. */
  function StudentsFor(state: SetupUiState, sessionId: string): (r: seq<Student>)
    ensures |r| == |state.studentEntries|
    ensures forall i :: 0 <= i < |r| ==> r[i].id == state.studentEntries[i].student.id && r[i].sessionId == Some(sessionId)
    ensures forall i :: 0 <= i < |r| ==> r[i].level == state.studentLevel && r[i].name == state.studentEntries[i].student.name
  {
    seq(|state.studentEntries|, i requires 0 <= i < |state.studentEntries| =>
      state.studentEntries[i].student.(level := state.studentLevel, sessionId := Some(sessionId)))
  }

  /** The session as stored after `createBackendDebate`: linked on an answer, as saved when the call threw. */
  function Linked(session: DebateSession, response: Result<Repository.CreateDebateResponse>): DebateSession
  {
    if response.Success? then Repository.LinkBackendDebate(session, response.value) else session
  }

  // ------------------------------------------------------------ the view model

  class SetupViewModel {
    var state: SetupUiState

    constructor()
      ensures state == InitialState
    {
      state := InitialState;
    }

    method UpdateMotion(motion: string)
      modifies this
      ensures state == old(state).(motion := TakeMotion(motion))
    {
      state := state.(motion := TakeMotion(motion));
    }

    /** `selectFormat`: the format's speech default, its reply default (if any) and groups it allows. */
    method SelectFormat(format: DebateFormat)
      modifies this
      ensures state == old(state).(format := format, speechTimeSeconds := format.DefaultSpeechTime(),
        includeReplySpeeches := format.DefaultReplyTime().Some?, replyTimeSeconds := format.DefaultReplyTime(),
        studentEntries := ClearDisallowed(old(state).studentEntries, format))
      ensures state.includeReplySpeeches <==> format.HasReplySpeeches()
    {
      var replyTime := if format.HasReplySpeeches() then format.DefaultReplyTime() else None;
      var includeReply := replyTime.Some?;
      var filtered := ClearDisallowed(state.studentEntries, format);
      state := state.(format := format, speechTimeSeconds := format.DefaultSpeechTime(),
        includeReplySpeeches := includeReply, replyTimeSeconds := replyTime, studentEntries := filtered);
    }

    method SelectLevel(level: StudentLevel)
      modifies this
      ensures state == old(state).(studentLevel := level)
    {
      state := state.(studentLevel := level);
    }

    /**
     * `addStudent`: ignored when the untrimmed name is shorter than two
     * UTF-16 units (one astral character is enough); otherwise one
     * unassigned entry is appended. The new student's UUID and creation
     * time are passed in.
     */
    method AddStudent(name: string, id: string, now: int)
      modifies this
      ensures Utf16Length(name) < SpeakerMin ==> state == old(state)
      ensures Utf16Length(name) >= SpeakerMin ==> state == old(state).(newStudentName := "",
        studentEntries := old(state).studentEntries + [StudentEntry(NewStudent(id, KotlinTrim(name), old(state).studentLevel, now), None)])
    {
      if Utf16Length(name) < SpeakerMin {
        return;
      }
      var student := NewStudent(id, KotlinTrim(name), state.studentLevel, now);
      state := state.(newStudentName := "", studentEntries := state.studentEntries + [StudentEntry(student, None)]);
    }

    method UpdateNewStudentName(name: string)
      modifies this
      ensures state == old(state).(newStudentName := name)
    {
      state := state.(newStudentName := name);
    }

    method RemoveStudent(id: string)
      modifies this
      ensures state == old(state).(studentEntries := RemoveEntries(old(state).studentEntries, id))
    {
      state := state.(studentEntries := RemoveEntries(state.studentEntries, id));
    }

    method AssignStudent(studentId: string, group: Option<TeamGroup>)
      modifies this
      ensures state == old(state).(studentEntries := AssignEntries(old(state).studentEntries, studentId, group))
    {
      state := state.(studentEntries := AssignEntries(state.studentEntries, studentId, group));
    }

    method NavigateTo(step: SetupStep)
      modifies this
      ensures state == old(state).(currentStep := step)
    {
      state := state.(currentStep := step);
    }

    method UpdateSpeechTime(seconds: int)
      modifies this
      ensures state == old(state).(speechTimeSeconds := ClampSpeechTime(seconds))
    {
      state := state.(speechTimeSeconds := ClampSpeechTime(seconds));
    }

    /** `updateReplyEnabled`: off clears the reply time; on sets the format default, or 120 without one. */
    method UpdateReplyEnabled(enabled: bool)
      modifies this
      ensures !enabled ==> state == old(state).(includeReplySpeeches := false, replyTimeSeconds := None)
      ensures enabled ==> state == old(state).(includeReplySpeeches := true,
        replyTimeSeconds := Some(old(state).format.DefaultReplyTime().GetOr(120)))
    {
      state := state.(includeReplySpeeches := enabled);
      if !enabled {
        state := state.(replyTimeSeconds := None);
      } else {
        var default := state.format.DefaultReplyTime().GetOr(120);
        state := state.(replyTimeSeconds := Some(default));
      }
    }

    method UpdateReplyTime(seconds: int)
      modifies this
      ensures state == old(state).(replyTimeSeconds := Some(seconds))
    {
      state := state.(replyTimeSeconds := Some(seconds));
    }

    method DismissError()
      modifies this
      ensures state == old(state).(errorMessage := None)
    {
      state := state.(errorMessage := None);
    }

    /**
     * `createDebate`: a validation message is shown and nothing is saved;
     * otherwise the session and its students are saved and the backend
     * debate is created, its answer passed in. On an answer the session id
     * is handed to `onReady`, returned here; when the call throws, its
     * message is shown and the saved session stays unlinked.
     */
    method CreateDebate(repo: Repository.DebateRepository, sessionId: string, now: int,
                        response: Result<Repository.CreateDebateResponse>) returns (readyId: Option<string>)
      requires repo.dao.db.Valid()
      modifies this, repo.dao.db
      ensures repo.dao.db.Valid()
      ensures Validate(old(state)).Some? ==> state == old(state).(errorMessage := Validate(old(state)))
      ensures Validate(old(state)).Some? ==> readyId.None? && unchanged(repo.dao.db)
      ensures Validate(old(state)).None? ==> readyId == (if response.Success? then Some(sessionId) else None)
      ensures Validate(old(state)).None? ==> repo.dao.db.sessions == old(repo.dao.db.sessions)[sessionId :=
        Store.EncodeSession(Linked(SessionFor(old(state), sessionId, now), response))]
      ensures Validate(old(state)).None? ==>
        repo.dao.db.students == Store.ReplaceStudents(old(repo.dao.db.students), sessionId, StudentsFor(old(state), sessionId))
      ensures Validate(old(state)).None? ==> repo.dao.db.recordings == old(repo.dao.db.recordings)
      ensures Validate(old(state)).None? ==> state == old(state).(isCreating := false,
        errorMessage := if response.Success? then None else Some(response.error))
    {
      var current := state;
      var validation := Validate(current);
      if validation.Some? {
        state := current.(errorMessage := validation);
        return None;
      }
      var session := SessionFor(current, sessionId, now);
      var students := StudentsFor(current, sessionId);
      state := state.(isCreating := true, errorMessage := None);
      var outcome := SaveAndCreate(repo, session, students, response);
      if outcome.Success? {
        state := state.(isCreating := false);
        readyId := Some(outcome.value);
      } else {
        state := state.(isCreating := false, errorMessage := Some(outcome.error));
        readyId := None;
      }
    }

    /**
     * The coroutine body of `createDebate`: save, create on the backend,
     * answer with the session id, or with the message of the error thrown.
     */
    method SaveAndCreate(repo: Repository.DebateRepository, session: DebateSession, students: seq<Student>,
                         response: Result<Repository.CreateDebateResponse>) returns (r: Result<string>)
      requires repo.dao.db.Valid() && session.teamComposition.Some?
      modifies repo.dao.db
      ensures repo.dao.db.Valid()
      ensures r == if response.Success? then Success(session.id) else Failure(response.error)
      ensures repo.dao.db.sessions == old(repo.dao.db.sessions)[session.id := Store.EncodeSession(Linked(session, response))]
      ensures repo.dao.db.students == Store.ReplaceStudents(old(repo.dao.db.students), session.id, students)
      ensures repo.dao.db.recordings == old(repo.dao.db.recordings)
    {
      repo.SaveSession(session, students);
      var updated := repo.CreateBackendDebate(session, students, response);
      if updated.Failure? {
        return Failure(updated.error);
      }
      r := Success(updated.value.id);
    }
  }
}
