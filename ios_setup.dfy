/**
 * The iOS debate setup: `SetupViewModel`, whose students, six team arrays,
 * timing fields, motion and class options are changed in place, and the
 * small pure pieces of `DebateSetupView` (steppers, team restoration from a
 * saved session, the step index, and the drop and reorder guards).
 */
module IosSetup {
  import opened Wrappers
  import opened Text
  import opened Formats
  import opened Models
  import opened SpeakerOrder
  import Sanitize

  // ------------------------------------------------------------ teams

  datatype TeamType = PropTeam | OppTeam | OgTeam | OoTeam | CgTeam | CoTeam

  /** The label `getTeamName` gives each team. */
  function TeamName(t: TeamType): string
  {
    match t
    case PropTeam => "Proposition"
    case OppTeam => "Opposition"
    case OgTeam => "Opening Government"
    case OoTeam => "Opening Opposition"
    case CgTeam => "Closing Government"
    case CoTeam => "Closing Opposition"
  }

  /** `contains(where: { $0.id == id })`. */
  predicate HasId(xs: seq<Student>, id: string)
  {
    exists i :: 0 <= i < |xs| && xs[i].id == id
  }

  /** `removeAll { $0.id == id }`: the others, in order. */
  function WithoutId(xs: seq<Student>, id: string): (r: seq<Student>)
    ensures forall i :: 0 <= i < |r| ==> r[i].id != id
    ensures forall s :: s in r <==> s in xs && s.id != id
    ensures !HasId(xs, id) ==> r == xs
  {
    if |xs| == 0 then []
    else (if xs[0].id == id then [] else [xs[0]]) + WithoutId(xs[1..], id)
  }

  /** The six team arrays of the view model. */
  datatype Teams = Teams(prop: seq<Student>, opp: seq<Student>, og: seq<Student>,
                         oo: seq<Student>, cg: seq<Student>, co: seq<Student>)
  {
    function Get(t: TeamType): seq<Student>
    {
      match t
      case PropTeam => prop
      case OppTeam => opp
      case OgTeam => og
      case OoTeam => oo
      case CgTeam => cg
      case CoTeam => co
    }

    /** The teams with team `t` replaced. */
    function With(t: TeamType, xs: seq<Student>): (r: Teams)
      ensures r.Get(t) == xs
      ensures forall u :: u != t ==> r.Get(u) == Get(u)
    {
      match t
      case PropTeam => this.(prop := xs)
      case OppTeam => this.(opp := xs)
      case OgTeam => this.(og := xs)
      case OoTeam => this.(oo := xs)
      case CgTeam => this.(cg := xs)
      case CoTeam => this.(co := xs)
    }

    /** The id is on one of the six teams. */
    predicate OnAnyTeam(id: string)
    {
      HasId(prop, id) || HasId(opp, id) || HasId(og, id) || HasId(oo, id) || HasId(cg, id) || HasId(co, id)
    }

    /** `removeFromAllTeams`. */
    function WithoutStudent(id: string): Teams
    {
      Teams(WithoutId(prop, id), WithoutId(opp, id), WithoutId(og, id),
            WithoutId(oo, id), WithoutId(cg, id), WithoutId(co, id))
    }
  }

  /** Removal from all teams drops exactly that id from each team, so the student is then on none. */
  lemma WithoutStudentRemovesOnlyThem(ts: Teams, id: string)
    ensures forall u :: ts.WithoutStudent(id).Get(u) == WithoutId(ts.Get(u), id)
    ensures !ts.WithoutStudent(id).OnAnyTeam(id)
  {
    var r := ts.WithoutStudent(id);
    forall u
      ensures r.Get(u) == WithoutId(ts.Get(u), id)
    {
      match u
      case PropTeam =>
      case OppTeam =>
      case OgTeam =>
      case OoTeam =>
      case CgTeam =>
      case CoTeam =>
    }
    assert !HasId(r.prop, id) && !HasId(r.opp, id) && !HasId(r.og, id);
    assert !HasId(r.oo, id) && !HasId(r.cg, id) && !HasId(r.co, id);
  }

  const NoTeams := Teams([], [], [], [], [], [])

  /** `assignToTeam`: out of every team, then appended to `t`. */
  function AssignTo(ts: Teams, student: Student, t: TeamType): Teams
  {
    var cleared := ts.WithoutStudent(student.id);
    cleared.With(t, cleared.Get(t) + [student])
  }

  /**
   * After an assignment the student is on exactly the target team, once,
   * at its end; every other student keeps their memberships.
   */
  lemma AssignedToExactlyOneTeam(ts: Teams, student: Student, t: TeamType)
    ensures var r := AssignTo(ts, student, t); var team := r.Get(t);
      && |team| > 0 && team[|team| - 1] == student
      && (forall i :: 0 <= i < |team| - 1 ==> team[i].id != student.id)
      && (forall u :: u != t ==> !HasId(r.Get(u), student.id))
      && (forall u, s: Student :: s.id != student.id ==> (s in r.Get(u) <==> s in ts.Get(u)))
  {
    var cleared := ts.WithoutStudent(student.id);
    WithoutStudentRemovesOnlyThem(ts, student.id);
    var r := AssignTo(ts, student, t);
    forall u | u != t
      ensures !HasId(r.Get(u), student.id)
    {
      assert r.Get(u) == WithoutId(ts.Get(u), student.id);
    }
  }

  /** `remove(at: from)` then `insert(_, at: to)`. */
  function Moved(xs: seq<Student>, from: nat, to: nat): (r: seq<Student>)
    requires from < |xs| && to < |xs|
    ensures |r| == |xs| && r[to] == xs[from]
  {
    var rest := xs[..from] + xs[from + 1..];
    rest[..to] + [xs[from]] + rest[to..]
  }

  /** A move only rearranges the team. */
  lemma MovedIsPermutation(xs: seq<Student>, from: nat, to: nat)
    requires from < |xs| && to < |xs|
    ensures multiset(Moved(xs, from, to)) == multiset(xs)
  {
    var x := xs[from];
    var rest := xs[..from] + xs[from + 1..];
    assert xs == xs[..from] + [x] + xs[from + 1..];
    assert multiset(xs) == multiset(xs[..from]) + multiset{x} + multiset(xs[from + 1..]);
    assert multiset(rest) == multiset(xs[..from]) + multiset(xs[from + 1..]);
    assert rest == rest[..to] + rest[to..];
    assert multiset(rest) == multiset(rest[..to]) + multiset(rest[to..]);
    calc {
      multiset(Moved(xs, from, to));
      multiset(rest[..to] + [x] + rest[to..]);
      multiset(rest[..to]) + multiset{x} + multiset(rest[to..]);
      multiset(rest) + multiset{x};
      multiset(xs);
    }
  }

  /** Moving back restores the team. */
  lemma MovedBack(xs: seq<Student>, from: nat, to: nat)
    requires from < |xs| && to < |xs|
    ensures Moved(Moved(xs, from, to), to, from) == xs
  {
    var x := xs[from];
    var rest := xs[..from] + xs[from + 1..];
    var r := Moved(xs, from, to);
    assert r[..to] + r[to + 1..] == rest;
    assert rest[..from] == xs[..from];
    assert rest[from..] == xs[from + 1..];
    assert xs == xs[..from] + [x] + xs[from + 1..];
  }

  /** `reorderTeam`: a move inside team `t` when both indices are in range; otherwise nothing. */
  function Reorder(ts: Teams, t: TeamType, from: nat, to: nat): (r: Teams)
    ensures forall u :: u != t ==> r.Get(u) == ts.Get(u)
    ensures !(from < |ts.Get(t)| && to < |ts.Get(t)|) ==> r == ts
  {
    var xs := ts.Get(t);
    if from < |xs| && to < |xs| then ts.With(t, Moved(xs, from, to)) else ts
  }

  /** A reorder never changes who is on which team. */
  lemma ReorderKeepsMembers(ts: Teams, t: TeamType, from: nat, to: nat)
    ensures forall u :: multiset(Reorder(ts, t, from, to).Get(u)) == multiset(ts.Get(u))
  {
    var xs := ts.Get(t);
    if from < |xs| && to < |xs| {
      MovedIsPermutation(xs, from, to);
    }
  }

  /** The students, in order, that are on no team. */
  function Unassigned(students: seq<Student>, ts: Teams): (r: seq<Student>)
    ensures forall s :: s in r <==> s in students && !ts.OnAnyTeam(s.id)
    ensures |r| <= |students|
  {
    if |students| == 0 then []
    else (if ts.OnAnyTeam(students[0].id) then [] else [students[0]]) + Unassigned(students[1..], ts)
  }

  /** `getTeamName`: the first team, in the order prop, opp, og, oo, cg, co, that holds the student. */
  function TeamNameFor(ts: Teams, id: string): (r: Option<string>)
    ensures r.None? <==> !ts.OnAnyTeam(id)
    ensures forall t :: r == Some(TeamName(t)) ==> HasId(ts.Get(t), id)
    ensures HasId(ts.prop, id) ==> r == Some(TeamName(PropTeam))
  {
    if HasId(ts.prop, id) then Some(TeamName(PropTeam))
    else if HasId(ts.opp, id) then Some(TeamName(OppTeam))
    else if HasId(ts.og, id) then Some(TeamName(OgTeam))
    else if HasId(ts.oo, id) then Some(TeamName(OoTeam))
    else if HasId(ts.cg, id) then Some(TeamName(CgTeam))
    else if HasId(ts.co, id) then Some(TeamName(CoTeam))
    else None
  }

  /** A listed student is in the unassigned row exactly when no team name is shown for them. */
  lemma UnassignedIffNoTeamName(students: seq<Student>, ts: Teams, s: Student)
    requires s in students
    ensures s in Unassigned(students, ts) <==> TeamNameFor(ts, s.id).None?
  {
  }

  /** The teams that `validateTeamAssignment` requires to be non-empty for the format. */
  predicate TeamsFilled(ts: Teams, format: DebateFormat)
    requires format != ModifiedWsdc
  {
    if format == Bp then ts.og != [] && ts.oo != [] && ts.cg != [] && ts.co != []
    else ts.prop != [] && ts.opp != []
  }

  const NoStudentsSelectedMessage := "Please add at least one student to each team."
  const BpTeamsMessage := "Please assign students to all four teams (OG, OO, CG, CO)"
  const UnassignedMessage := "Some students are not assigned to teams. Remove them or assign them."

  /** The message `validateTeamAssignment` shows, or nothing when the assignment is accepted. */
  function TeamValidation(students: seq<Student>, ts: Teams, format: DebateFormat): (r: Option<string>)
    requires format != ModifiedWsdc
    ensures r.None? <==> TeamsFilled(ts, format) && (forall s :: s in students ==> ts.OnAnyTeam(s.id))
  {
    if !TeamsFilled(ts, format) then Some(if format == Bp then BpTeamsMessage else NoStudentsSelectedMessage)
    else if Unassigned(students, ts) != [] then
      assert Unassigned(students, ts)[0] in Unassigned(students, ts);
      Some(UnassignedMessage)
    else None
  }

  /** The composition `createDebate` stores: the ids of the format's teams, the others absent. */
  function CompositionOf(ts: Teams, format: DebateFormat): (c: TeamComposition)
    requires format != ModifiedWsdc
    ensures format == Bp ==> c.prop.None? && c.opp.None? && c.og.Some? && c.co.Some?
    ensures format != Bp ==> c.og.None? && c.oo.None? && c.cg.None? && c.co.None? && c.prop.Some? && c.opp.Some?
  {
    if format == Bp then TeamComposition(None, None, Some(IdsOf(ts.og)), Some(IdsOf(ts.oo)), Some(IdsOf(ts.cg)), Some(IdsOf(ts.co)))
    else TeamComposition(Some(IdsOf(ts.prop)), Some(IdsOf(ts.opp)), None, None, None, None)
  }

  function IdsOf(xs: seq<Student>): (r: seq<string>)
    ensures |r| == |xs| && forall i :: 0 <= i < |xs| ==> r[i] == xs[i].id
  {
    if |xs| == 0 then [] else [xs[0].id] + IdsOf(xs[1..])
  }

  /**
   * The speaking order of a created debate holds exactly the members of the
   * format's own teams, each as often as listed.
   */
  lemma CreatedOrderListsFormatTeams(ts: Teams, format: DebateFormat)
    requires format != ModifiedWsdc
    ensures var order := Ids(SpeakerOrderSpec(CompositionOf(ts, format), format));
      && (format != Bp ==> multiset(order) == multiset(IdsOf(ts.prop)) + multiset(IdsOf(ts.opp)))
      && (format == Bp ==> order == IdsOf(ts.og) + IdsOf(ts.oo) + IdsOf(ts.cg) + IdsOf(ts.co))
  {
    SpeakerOrderIds(CompositionOf(ts, format), format);
  }

  /**
   * Validation counts a student on any of the six teams as assigned, so a
   * student left on a British Parliamentary team after switching to WSDC
   * passes validation yet is not in the created debate's speaking order.
   */
  lemma StaleTeamPassesValidation(a: Student, b: Student, c: Student)
    requires a.id != b.id && a.id != c.id && b.id != c.id
    ensures var ts := Teams([a], [b], [c], [], [], []);
      && TeamValidation([a, b, c], ts, Wsdc).None?
      && c.id !in multiset(Ids(SpeakerOrderSpec(CompositionOf(ts, Wsdc), Wsdc)))
  {
    var ts := Teams([a], [b], [c], [], [], []);
    assert HasId(ts.og, c.id) by { assert ts.og[0].id == c.id; }
    assert HasId(ts.prop, a.id) by { assert ts.prop[0].id == a.id; }
    assert HasId(ts.opp, b.id) by { assert ts.opp[0].id == b.id; }
    CreatedOrderListsFormatTeams(ts, Wsdc);
    assert IdsOf([a]) == [a.id];
    assert IdsOf([b]) == [b.id];
  }

  // ------------------------------------------------------------ timing

  /** The timing fields: speech time, whether replies are on, the reply time and the remembered reply time. */
  datatype Timing = Timing(speechTime: int, includeReplies: bool, replyTime: Option<int>, lastReplyTime: Option<int>)

  /** Every assignment to `replyTimeSeconds` goes through its `didSet`, which remembers a non-nil value. */
  function AssignReplyTime(t: Timing, v: Option<int>): (r: Timing)
    ensures r.replyTime == v && r.speechTime == t.speechTime && r.includeReplies == t.includeReplies
    ensures v.Some? ==> r.lastReplyTime == v
    ensures v.None? ==> r.lastReplyTime == t.lastReplyTime
  {
    t.(replyTime := v, lastReplyTime := if v.Some? then v else t.lastReplyTime)
  }

  /** The reply time on screen is always the remembered one. */
  predicate Remembered(t: Timing)
  {
    t.replyTime.Some? ==> t.lastReplyTime == t.replyTime
  }

  /** `updateTimeDefaults`. */
  function TimeDefaults(t: Timing, f: DebateFormat): (r: Timing)
    ensures Remembered(r)
  {
    var t1 := t.(speechTime := f.DefaultSpeechTime());
    if f.HasReplySpeeches() then
      var t2 := if f.DefaultReplyTime().Some? then t1.(lastReplyTime := f.DefaultReplyTime()) else t1;
      if t2.includeReplies then AssignReplyTime(t2, Some(f.DefaultReplyTime().GetOr(t2.lastReplyTime.GetOr(120))))
      else AssignReplyTime(t2, None)
    else AssignReplyTime(t1.(includeReplies := false), None)
  }

  /**
   * After the defaults: the format's speech time; a reply time exactly when
   * the format has replies and they are included, and then the format's
   * default; replies switched off for formats without them; and the
   * remembered reply time reset to the format's default.
   */
  lemma TimeDefaultsResult(t: Timing, f: DebateFormat)
    ensures var r := TimeDefaults(t, f);
      && r.speechTime == f.DefaultSpeechTime()
      && (r.replyTime.Some? <==> f.HasReplySpeeches() && t.includeReplies)
      && (r.replyTime.Some? ==> r.replyTime == f.DefaultReplyTime())
      && (!f.HasReplySpeeches() ==> !r.includeReplies && r.lastReplyTime == t.lastReplyTime)
      && (f.HasReplySpeeches() ==> r.includeReplies == t.includeReplies && r.lastReplyTime == f.DefaultReplyTime())
  {
    FormatDefaults(f);
  }

  /** `setReplySpeechesEnabled`. */
  function ToggleReplies(t: Timing, enabled: bool, f: DebateFormat): (r: Timing)
    requires Remembered(t)
    ensures Remembered(r) && r.includeReplies == enabled && r.speechTime == t.speechTime
    ensures enabled ==> r.replyTime.Some?
    ensures !enabled ==> r.replyTime.None?
  {
    var t1 := t.(includeReplies := enabled);
    if enabled then
      AssignReplyTime(t1, if t1.lastReplyTime.Some? then t1.lastReplyTime else Some(f.DefaultReplyTime().GetOr(120)))
    else
      AssignReplyTime(t1.(lastReplyTime := if t.replyTime.Some? then t.replyTime else t.lastReplyTime), None)
  }

  /** Switching replies off and on again brings back the reply time that was showing. */
  lemma ReplyToggleRestores(t: Timing, f: DebateFormat)
    requires Remembered(t) && t.replyTime.Some?
    ensures ToggleReplies(ToggleReplies(t, false, f), true, f).replyTime == t.replyTime
  {
  }

  /** The speech-time stepper: down by a minute above one minute, up by a minute below fifteen. */
  function SpeechStep(seconds: int, down: bool): (r: int)
  {
    if down then (if seconds > 60 then seconds - 60 else seconds)
    else (if seconds < 900 then seconds + 60 else seconds)
  }

  /** The reply-time stepper: by half a minute, between one and five minutes. */
  function ReplyStep(seconds: int, down: bool): (r: int)
  {
    if down then (if seconds > 60 then seconds - 30 else seconds)
    else (if seconds < 300 then seconds + 30 else seconds)
  }

  /** Whole minutes from one to fifteen stay so under the speech stepper; half minutes from one to five under the reply stepper. */
  lemma SteppersStayOnGrid(s: int, r: int, down: bool)
    ensures 60 <= s <= 900 && s % 60 == 0 ==> var n := SpeechStep(s, down); 60 <= n <= 900 && n % 60 == 0
    ensures 60 <= r <= 300 && r % 30 == 0 ==> var n := ReplyStep(r, down); 60 <= n <= 300 && n % 30 == 0
  {
  }

  // ------------------------------------------------------------ schedule options

  /** A class offered by the schedule: its id and the title shown for it. */
  datatype ClassOption = ClassOption(classId: string, title: Option<string>)

  function IdSet(xs: seq<ClassOption>): set<string>
  {
    set i | 0 <= i < |xs| :: xs[i].classId
  }

  lemma IdSetSnoc(xs: seq<ClassOption>, x: ClassOption)
    ensures IdSet(xs + [x]) == IdSet(xs) + {x.classId}
  {
    var ys := xs + [x];
    forall id | id in IdSet(ys)
      ensures id in IdSet(xs) + {x.classId}
    {
      var i :| 0 <= i < |ys| && ys[i].classId == id;
      if i < |xs| {
        assert xs[i].classId == id;
      }
    }
    forall id | id in IdSet(xs) + {x.classId}
      ensures id in IdSet(ys)
    {
      if id == x.classId {
        assert ys[|xs|].classId == id;
      } else {
        var i :| 0 <= i < |xs| && xs[i].classId == id;
        assert ys[i].classId == id;
      }
    }
  }

  /** The first entry with that id, if any. */
  function FirstWithId(xs: seq<ClassOption>, id: string): (r: Option<ClassOption>)
    decreases |xs|
  {
    if |xs| == 0 then None
    else
      var first := FirstWithId(xs[..|xs| - 1], id);
      if first.Some? then first else if xs[|xs| - 1].classId == id then Some(xs[|xs| - 1]) else None
  }

  /** The entries whose id is not excluded and not already seen, first occurrence winning. */
  function Dedupe(xs: seq<ClassOption>, excluded: set<string>): seq<ClassOption>
    decreases |xs|
  {
    if |xs| == 0 then []
    else
      var init := xs[..|xs| - 1];
      var x := xs[|xs| - 1];
      if x.classId in excluded || x.classId in IdSet(init) then Dedupe(init, excluded)
      else Dedupe(init, excluded) + [x]
  }

  /**
   * Deduplication keeps every id that is not excluded exactly once, and
   * each kept entry is the first entry with its id.
   */
  lemma {:induction false} DedupeProperties(xs: seq<ClassOption>, excluded: set<string>)
    ensures var r := Dedupe(xs, excluded);
      && IdSet(r) == IdSet(xs) - excluded
      && (forall i, j :: 0 <= i < j < |r| ==> r[i].classId != r[j].classId)
      && (forall i :: 0 <= i < |r| ==> FirstWithId(xs, r[i].classId) == Some(r[i]))
    decreases |xs|
  {
    if |xs| > 0 {
      var init := xs[..|xs| - 1];
      var x := xs[|xs| - 1];
      assert xs == init + [x];
      DedupeProperties(init, excluded);
      IdSetSnoc(init, x);
      var p := Dedupe(init, excluded);
      forall i | 0 <= i < |p|
        ensures FirstWithId(xs, p[i].classId) == Some(p[i])
      {
      }
      if !(x.classId in excluded || x.classId in IdSet(init)) {
        IdSetSnoc(p, x);
        FirstWithIdAbsent(init, x.classId);
      }
    }
  }

  lemma {:induction false} FirstWithIdAbsent(xs: seq<ClassOption>, id: string)
    requires id !in IdSet(xs)
    ensures FirstWithId(xs, id).None?
    decreases |xs|
  {
    if |xs| > 0 {
      var init := xs[..|xs| - 1];
      assert xs == init + [xs[|xs| - 1]];
      IdSetSnoc(init, xs[|xs| - 1]);
      FirstWithIdAbsent(init, id);
    }
  }

  /** What `applySchedule` offers as classes: the deduplicated list, led by the response's own class when it was missing. */
  function ClassOptionsSpec(provided: Option<seq<ClassOption>>, primary: ClassOption): seq<ClassOption>
  {
    var d := Dedupe(provided.GetOr([]), {});
    if primary.classId in IdSet(d) then d else [primary] + d
  }

  /** The response's class is always offered, and no class twice. */
  lemma ClassOptionsComplete(provided: Option<seq<ClassOption>>, primary: ClassOption)
    ensures var r := ClassOptionsSpec(provided, primary);
      && primary.classId in IdSet(r)
      && IdSet(r) == IdSet(provided.GetOr([])) + {primary.classId}
      && forall i, j :: 0 <= i < j < |r| ==> r[i].classId != r[j].classId
  {
    var d := Dedupe(provided.GetOr([]), {});
    DedupeProperties(provided.GetOr([]), {});
    if primary.classId !in IdSet(d) {
      var r := [primary] + d;
      assert r[0].classId == primary.classId;
      forall id | id in IdSet(r)
        ensures id in IdSet(d) + {primary.classId}
      {
        var i :| 0 <= i < |r| && r[i].classId == id;
        if i > 0 {
          assert d[i - 1].classId == id;
        }
      }
      forall id | id in IdSet(d)
        ensures id in IdSet(r)
      {
        var i :| 0 <= i < |d| && d[i].classId == id;
        assert r[i + 1].classId == id;
      }
    }
  }

  /** The class-option loop of `applySchedule`. */
  method BuildClassOptions(provided: Option<seq<ClassOption>>, primary: ClassOption) returns (classOptions: seq<ClassOption>)
    ensures classOptions == ClassOptionsSpec(provided, primary)
  {
    classOptions := [];
    var seen: set<string> := {};
    var xs := provided.GetOr([]);
    var i := 0;
    while i < |xs|
      invariant 0 <= i <= |xs|
      invariant classOptions == Dedupe(xs[..i], {}) && seen == IdSet(xs[..i])
    {
      assert xs[..i + 1] == xs[..i] + [xs[i]];
      IdSetSnoc(xs[..i], xs[i]);
      if xs[i].classId !in seen {
        seen := seen + {xs[i].classId};
        classOptions := classOptions + [xs[i]];
      }
      i := i + 1;
    }
    assert xs[..|xs|] == xs;
    DedupeProperties(xs, {});
    if primary.classId !in seen {
      classOptions := [primary] + classOptions;
    }
  }

  /** The alternatives of `applySchedule`: without the response's own class, deduplicated. */
  method FilterAlternatives(alternatives: Option<seq<ClassOption>>, responseClassId: string) returns (r: seq<ClassOption>)
    ensures r == Dedupe(alternatives.GetOr([]), {responseClassId})
  {
    r := [];
    var seen: set<string> := {};
    var xs := alternatives.GetOr([]);
    var i := 0;
    while i < |xs|
      invariant 0 <= i <= |xs|
      invariant r == Dedupe(xs[..i], {responseClassId}) && seen == IdSet(xs[..i]) - {responseClassId}
    {
      assert xs[..i + 1] == xs[..i] + [xs[i]];
      IdSetSnoc(xs[..i], xs[i]);
      if xs[i].classId != responseClassId && xs[i].classId !in seen {
        seen := seen + {xs[i].classId};
        r := r + [xs[i]];
      }
      i := i + 1;
    }
    assert xs[..|xs|] == xs;
  }

  /** `applySuggestedMotion`: the trimmed suggestion, else the trimmed fallback, else the current motion. */
  function SuggestedMotion(current: string, suggested: Option<string>, fallback: Option<string>): (m: string)
    ensures suggested.Some? && Trim(suggested.value) != [] ==> m == Trim(suggested.value)
    ensures (suggested.None? || Trim(suggested.value) == []) && fallback.Some? && Trim(fallback.value) != [] ==> m == Trim(fallback.value)
    ensures (suggested.None? || Trim(suggested.value) == []) && (fallback.None? || Trim(fallback.value) == []) ==> m == current
  {
    if suggested.Some? && Trim(suggested.value) != [] then Trim(suggested.value)
    else if fallback.Some? && Trim(fallback.value) != [] then Trim(fallback.value)
    else current
  }

  /** A blank suggestion never replaces the motion on screen. */
  lemma BlankSuggestionKeepsMotion(current: string, suggested: string, fallback: string)
    requires IsBlankString(suggested) && IsBlankString(fallback)
    ensures SuggestedMotion(current, Some(suggested), Some(fallback)) == current
  {
    TrimEmptyIffBlank(suggested);
    TrimEmptyIffBlank(fallback);
  }

  // ------------------------------------------------------------ the setup view

  datatype SetupStep = BasicInfo | TeamAssignment

  /** `stepIndex`: the progress-bar position of a step. */
  function StepIndex(step: SetupStep): (i: int)
    ensures i == 0 <==> step == BasicInfo
    ensures i == 1 <==> step == TeamAssignment
  {
    match step
    case BasicInfo => 0
    case TeamAssignment => 1
  }

  /** `findStudents`: for each id, in order, the first student with it; unknown ids are dropped. */
  function FindStudents(ids: Option<seq<string>>, students: seq<Student>): (r: seq<Student>)
    ensures ids.None? ==> r == []
    ensures forall s :: s in r ==> s in students && s.id in ids.GetOr([])
    ensures |r| <= |ids.GetOr([])|
    decreases |ids.GetOr([])|
  {
    match ids
    case None => []
    case Some(xs) =>
      if |xs| == 0 then []
      else
        var rest := FindStudents(Some(xs[1..]), students);
        match FirstStudent(students, xs[0])
        case Some(s) => [s] + rest
        case None => rest
  }

  function FirstStudent(students: seq<Student>, id: string): (r: Option<Student>)
    ensures r.Some? ==> r.value in students && r.value.id == id
    ensures r.None? <==> !HasId(students, id)
  {
    if |students| == 0 then None
    else if students[0].id == id then Some(students[0])
    else FirstStudent(students[1..], id)
  }

  /** Restoring a team from the ids the teams were saved with gives back the team, when ids are unique. */
  lemma {:induction false} FindStudentsRestores(team: seq<Student>, students: seq<Student>)
    requires forall s :: s in team ==> s in students
    requires forall i, j :: 0 <= i < |students| && 0 <= j < |students| && students[i].id == students[j].id ==> i == j
    ensures FindStudents(Some(IdsOf(team)), students) == team
    decreases |team|
  {
    if |team| > 0 {
      assert IdsOf(team)[1..] == IdsOf(team[1..]);
      FindStudentsRestores(team[1..], students);
      UniqueFirst(students, team[0]);
    }
  }

  lemma {:induction false} UniqueFirst(students: seq<Student>, s: Student)
    requires s in students
    requires forall i, j :: 0 <= i < |students| && 0 <= j < |students| && students[i].id == students[j].id ==> i == j
    ensures FirstStudent(students, s.id) == Some(s)
    decreases |students|
  {
    if students[0] != s {
      if students[0].id == s.id {
        assert false;
      } else {
        forall i, j | 0 <= i < |students| - 1 && 0 <= j < |students| - 1 && students[1..][i].id == students[1..][j].id
          ensures i == j
        {
          assert students[i + 1].id == students[j + 1].id;
        }
        UniqueFirst(students[1..], s);
      }
    }
  }

  /**
   * `handleDrop`: the first dragged item must parse as an id and name a
   * known student, who is then dropped onto the zone's team.
   */
  function DropTarget(items: seq<string>, parseId: string -> Option<string>, allStudents: seq<Student>): (r: Option<Student>)
    ensures r.Some? ==> |items| > 0 && parseId(items[0]).Some? && r.value in allStudents && r.value.id == parseId(items[0]).value
    ensures (|items| == 0 || parseId(items[0]).None?) ==> r.None?
    ensures |items| > 0 && parseId(items[0]).Some? ==> (r.Some? <==> HasId(allStudents, parseId(items[0]).value))
  {
    if |items| == 0 then None
    else match parseId(items[0])
      case None => None
      case Some(id) => FirstStudent(allStudents, id)
  }

  function FirstIndex(xs: seq<Student>, id: string): (r: Option<nat>)
    ensures r.Some? ==> r.value < |xs| && xs[r.value].id == id && forall k :: 0 <= k < r.value ==> xs[k].id != id
    ensures r.None? <==> !HasId(xs, id)
  {
    if |xs| == 0 then None
    else if xs[0].id == id then Some(0)
    else match FirstIndex(xs[1..], id)
      case None => None
      case Some(k) => Some(k + 1)
  }

  /**
   * `handleReorder`: a reorder from the dragged student's first index to
   * `toIndex`, only when the dragged item parses as an id on this team and
   * is not the student it was dropped on.
   */
  function ReorderRequest(items: seq<string>, parseId: string -> Option<string>, team: seq<Student>,
                          toIndex: nat, target: Student): (r: Option<(nat, nat)>)
    ensures r.Some? ==>
      && |items| > 0 && parseId(items[0]).Some? && parseId(items[0]).value != target.id
      && r.value.0 < |team| && team[r.value.0].id == parseId(items[0]).value && r.value.1 == toIndex
    ensures |items| > 0 && parseId(items[0]).Some? && parseId(items[0]).value == target.id ==> r.None?
    ensures |items| > 0 && parseId(items[0]).Some? && !HasId(team, parseId(items[0]).value) ==> r.None?
    ensures |items| > 0 && parseId(items[0]).Some? ==>
      (HasId(team, parseId(items[0]).value) && parseId(items[0]).value != target.id ==> r.Some?)
  {
    if |items| == 0 then None
    else match parseId(items[0])
      case None => None
      case Some(id) =>
        match FirstIndex(team, id)
        case None => None
        case Some(from) => if id == target.id then None else Some((from, toIndex))
  }

  // ------------------------------------------------------------ the view model

  const InvalidMotionMessage := "Please enter a valid motion (5-200 characters)."
  const InvalidNameMessage := "Please enter a valid name (2-50 characters)"
  const ServerFailurePrefix := "Failed to create debate on server: "

  /**
   * The setup view model. Each method's `modifies` clause names exactly the
   * fields it assigns, so every other field is unchanged.
   */
  class IosSetupViewModel {
    var motion: string
    var selectedFormat: DebateFormat
    var studentLevel: StudentLevel
    var speechTimeSeconds: int
    var includeReplySpeeches: bool
    var replyTimeSeconds: Option<int>
    var lastReplyTimeSeconds: Option<int>
    var students: seq<Student>
    var newStudentName: string
    var propTeam: seq<Student>
    var oppTeam: seq<Student>
    var ogTeam: seq<Student>
    var ooTeam: seq<Student>
    var cgTeam: seq<Student>
    var coTeam: seq<Student>
    var showError: bool
    var errorMessage: string
    var currentStep: SetupStep
    var selectedClassId: Option<string>
    var selectedScheduleId: Option<string>
    var availableClasses: seq<ClassOption>
    var availableAlternatives: seq<ClassOption>

    function TimingView(): Timing
      reads this
    {
      Timing(speechTimeSeconds, includeReplySpeeches, replyTimeSeconds, lastReplyTimeSeconds)
    }

    function TeamsView(): Teams
      reads this
    {
      Teams(propTeam, oppTeam, ogTeam, ooTeam, cgTeam, coTeam)
    }

    /** The `didSet` of `replyTimeSeconds` keeps the remembered reply time in step. */
    ghost predicate Valid()
      reads this
    {
      Remembered(TimingView())
    }

    method SetTiming(t: Timing)
      modifies this`speechTimeSeconds, this`includeReplySpeeches, this`replyTimeSeconds, this`lastReplyTimeSeconds
      ensures TimingView() == t
    {
      speechTimeSeconds, includeReplySpeeches, replyTimeSeconds, lastReplyTimeSeconds :=
        t.speechTime, t.includeReplies, t.replyTime, t.lastReplyTime;
    }

    method SetTeams(ts: Teams)
      modifies this`propTeam, this`oppTeam, this`ogTeam, this`ooTeam, this`cgTeam, this`coTeam
      ensures TeamsView() == ts
    {
      propTeam, oppTeam, ogTeam, ooTeam, cgTeam, coTeam := ts.prop, ts.opp, ts.og, ts.oo, ts.cg, ts.co;
    }

    /**
     * `init`: WSDC, secondary level, no students or teams, then the time
     * defaults: replies off, so no reply time, with WSDC's four minutes
     * remembered for when they are switched on.
     */
    constructor()
      ensures Valid()
      ensures motion == "" && selectedFormat == Wsdc && studentLevel == Secondary
      ensures TimingView() == Timing(480, false, None, Some(240))
      ensures students == [] && newStudentName == "" && TeamsView() == NoTeams
      ensures !showError && errorMessage == "" && currentStep == BasicInfo
      ensures selectedClassId.None? && selectedScheduleId.None? && availableClasses == [] && availableAlternatives == []
    {
      var t := TimeDefaults(Timing(300, false, Some(180), None), Wsdc);
      motion := "";
      selectedFormat := Wsdc;
      studentLevel := Secondary;
      speechTimeSeconds, includeReplySpeeches, replyTimeSeconds, lastReplyTimeSeconds :=
        t.speechTime, t.includeReplies, t.replyTime, t.lastReplyTime;
      students := [];
      newStudentName := "";
      propTeam, oppTeam, ogTeam, ooTeam, cgTeam, coTeam := [], [], [], [], [], [];
      showError := false;
      errorMessage := "";
      currentStep := BasicInfo;
      selectedClassId, selectedScheduleId := None, None;
      availableClasses, availableAlternatives := [], [];
    }

    /** `updateTimeDefaults`. */
    method UpdateTimeDefaults()
      modifies this`speechTimeSeconds, this`includeReplySpeeches, this`replyTimeSeconds, this`lastReplyTimeSeconds
      ensures Valid()
      ensures TimingView() == TimeDefaults(old(TimingView()), selectedFormat)
    {
      var f := selectedFormat;
      var r := TimingView().(speechTime := f.DefaultSpeechTime());
      if f.HasReplySpeeches() {
        if f.DefaultReplyTime().Some? {
          r := r.(lastReplyTime := f.DefaultReplyTime());
        }
        if r.includeReplies {
          r := AssignReplyTime(r, Some(f.DefaultReplyTime().GetOr(r.lastReplyTime.GetOr(120))));
        } else {
          r := AssignReplyTime(r, None);
        }
      } else {
        r := AssignReplyTime(r.(includeReplies := false), None);
      }
      SetTiming(r);
    }

    /** The format picker: the new format, then its time defaults. */
    method SelectFormat(f: DebateFormat)
      modifies this`selectedFormat, this`speechTimeSeconds, this`includeReplySpeeches, this`replyTimeSeconds,
               this`lastReplyTimeSeconds
      ensures Valid()
      ensures selectedFormat == f && TimingView() == TimeDefaults(old(TimingView()), f)
    {
      selectedFormat := f;
      UpdateTimeDefaults();
    }

    /** `setReplySpeechesEnabled`. */
    method SetReplySpeechesEnabled(enabled: bool)
      requires Valid()
      modifies this`includeReplySpeeches, this`replyTimeSeconds, this`lastReplyTimeSeconds
      ensures Valid()
      ensures TimingView() == ToggleReplies(old(TimingView()), enabled, selectedFormat)
    {
      var t := TimingView().(includeReplies := enabled);
      if enabled {
        if t.lastReplyTime.Some? {
          t := AssignReplyTime(t, t.lastReplyTime);
        } else {
          t := AssignReplyTime(t, Some(selectedFormat.DefaultReplyTime().GetOr(120)));
        }
      } else {
        if t.replyTime.Some? {
          t := t.(lastReplyTime := t.replyTime);
        }
        t := AssignReplyTime(t, None);
      }
      includeReplySpeeches, replyTimeSeconds, lastReplyTimeSeconds := t.includeReplies, t.replyTime, t.lastReplyTime;
    }

    /** The speech-time stepper buttons. */
    method StepSpeechTime(down: bool)
      requires Valid()
      modifies this`speechTimeSeconds
      ensures Valid()
      ensures speechTimeSeconds == SpeechStep(old(speechTimeSeconds), down)
    {
      speechTimeSeconds := SpeechStep(speechTimeSeconds, down);
    }

    /** The reply-time stepper buttons, shown only while the format has replies, they are on, and a reply time is set. */
    method StepReplyTime(down: bool)
      requires Valid()
      modifies this`replyTimeSeconds, this`lastReplyTimeSeconds
      ensures Valid()
      ensures selectedFormat.HasReplySpeeches() && includeReplySpeeches && old(replyTimeSeconds).Some? ==>
        TimingView() == AssignReplyTime(old(TimingView()), Some(ReplyStep(old(replyTimeSeconds).value, down)))
      ensures !(selectedFormat.HasReplySpeeches() && includeReplySpeeches && old(replyTimeSeconds).Some?) ==>
        TimingView() == old(TimingView())
    {
      if selectedFormat.HasReplySpeeches() && includeReplySpeeches && replyTimeSeconds.Some? {
        var t := AssignReplyTime(TimingView(), Some(ReplyStep(replyTimeSeconds.value, down)));
        replyTimeSeconds, lastReplyTimeSeconds := t.replyTime, t.lastReplyTime;
      }
    }

    /** `nextStep`: to team assignment when the motion is valid; otherwise the motion error is shown. */
    method NextStep()
      modifies this`currentStep, this`errorMessage, this`showError
      ensures old(currentStep) == BasicInfo && Sanitize.IsValidMotion(motion) ==>
        currentStep == TeamAssignment && errorMessage == old(errorMessage) && showError == old(showError)
      ensures old(currentStep) == BasicInfo && !Sanitize.IsValidMotion(motion) ==>
        currentStep == BasicInfo && errorMessage == InvalidMotionMessage && showError
      ensures old(currentStep) == TeamAssignment ==>
        currentStep == TeamAssignment && errorMessage == old(errorMessage) && showError == old(showError)
    {
      var valid := Sanitize.IsValidMotion(motion);
      match currentStep
      case BasicInfo =>
        if valid {
          currentStep := TeamAssignment;
        } else {
          errorMessage := InvalidMotionMessage;
          showError := true;
        }
      case TeamAssignment =>
    }

    /** `previousStep`: always ends on the basic-info step. */
    method PreviousStep()
      modifies this`currentStep
      ensures currentStep == BasicInfo
    {
      currentStep := BasicInfo;
    }

    /** `addStudent`: a valid name appends one student with the current level and clears the field; otherwise an error. */
    method AddStudent(id: string, now: int)
      modifies this`students, this`newStudentName, this`errorMessage, this`showError
      ensures Sanitize.IsValidSpeakerName(old(newStudentName)) ==>
        && students == old(students) + [NewStudent(id, old(newStudentName), studentLevel, now)]
        && newStudentName == "" && errorMessage == old(errorMessage) && showError == old(showError)
      ensures !Sanitize.IsValidSpeakerName(old(newStudentName)) ==>
        && students == old(students) && newStudentName == old(newStudentName)
        && errorMessage == InvalidNameMessage && showError
    {
      var valid := Sanitize.IsValidSpeakerName(newStudentName);
      if !valid {
        errorMessage := InvalidNameMessage;
        showError := true;
      } else {
        students := students + [NewStudent(id, newStudentName, studentLevel, now)];
        newStudentName := "";
      }
    }

    /** `removeStudent`: gone from the students and from every team. */
    method RemoveStudent(student: Student)
      modifies this`students, this`propTeam, this`oppTeam, this`ogTeam, this`ooTeam, this`cgTeam, this`coTeam
      ensures students == WithoutId(old(students), student.id)
      ensures TeamsView() == old(TeamsView()).WithoutStudent(student.id)
    {
      students := WithoutId(students, student.id);
      RemoveFromAllTeams(student);
    }

    /** `removeFromAllTeams`. */
    method RemoveFromAllTeams(student: Student)
      modifies this`propTeam, this`oppTeam, this`ogTeam, this`ooTeam, this`cgTeam, this`coTeam
      ensures TeamsView() == old(TeamsView()).WithoutStudent(student.id)
    {
      SetTeams(TeamsView().WithoutStudent(student.id));
    }

    /** `assignToTeam`; returns the student's 1-based position on the team. */
    method AssignToTeam(student: Student, t: TeamType) returns (position: int)
      modifies this`propTeam, this`oppTeam, this`ogTeam, this`ooTeam, this`cgTeam, this`coTeam
      ensures TeamsView() == AssignTo(old(TeamsView()), student, t)
      ensures position == |TeamsView().Get(t)|
    {
      RemoveFromAllTeams(student);
      var xs := TeamsView().Get(t) + [student];
      SetTeams(TeamsView().With(t, xs));
      position := |xs|;
    }

    /** `reorderTeam`. */
    method ReorderTeam(t: TeamType, from: nat, to: nat)
      modifies this`propTeam, this`oppTeam, this`ogTeam, this`ooTeam, this`cgTeam, this`coTeam
      ensures TeamsView() == Reorder(old(TeamsView()), t, from, to)
    {
      var xs := TeamsView().Get(t);
      if !(from < |xs| && to < |xs|) {
        return;
      }
      var student := xs[from];
      var rest := xs[..from] + xs[from + 1..];
      SetTeams(TeamsView().With(t, rest[..to] + [student] + rest[to..]));
    }

    /** `unassignedStudents`. */
    function UnassignedStudents(): (r: seq<Student>)
      reads this
      ensures forall s :: s in r <==> s in students && !TeamsView().OnAnyTeam(s.id)
    {
      Unassigned(students, TeamsView())
    }

    /** `getTeamName`. */
    function GetTeamName(student: Student): (r: Option<string>)
      reads this
      ensures r.None? <==> !TeamsView().OnAnyTeam(student.id)
    {
      TeamNameFor(TeamsView(), student.id)
    }

    /** `validateTeamAssignment`: the message is shown when the assignment is refused. */
    method ValidateTeamAssignment() returns (ok: bool)
      requires selectedFormat != ModifiedWsdc
      modifies this`errorMessage, this`showError
      ensures var v := TeamValidation(students, TeamsView(), selectedFormat);
        && (ok <==> v.None?)
        && (v.Some? ==> errorMessage == v.value && showError)
        && (v.None? ==> errorMessage == old(errorMessage) && showError == old(showError))
    {
      var v := TeamValidation(students, TeamsView(), selectedFormat);
      if v.Some? {
        errorMessage := v.value;
        showError := true;
        return false;
      }
      return true;
    }

    /**
     * `createDebate`: nothing unless the teams validate; the session carries
     * the form's fields and the format's team ids; the backend's answer
     * (an input) either supplies its debate id or cancels with an error.
     */
    method CreateDebate(id: string, now: int, teacherId: Option<string>, backend: Result<string>)
      returns (session: Option<DebateSession>)
      requires selectedFormat != ModifiedWsdc
      modifies this`errorMessage, this`showError
      ensures var v := TeamValidation(students, TeamsView(), selectedFormat);
        && (v.Some? ==> session.None? && errorMessage == v.value && showError)
        && (v.None? && backend.Failure? ==>
              session.None? && errorMessage == ServerFailurePrefix + backend.error && showError)
        && (v.None? && backend.Success? ==>
              session.Some? && errorMessage == old(errorMessage) && showError == old(showError))
      ensures session.Some? ==>
        session.value == DebateSession(id, motion, selectedFormat, studentLevel,
                                       speechTimeSeconds, replyTimeSeconds, now,
                                       teacherId.None?, teacherId, selectedClassId, selectedScheduleId,
                                       Some(backend.value),
                                       Some(CompositionOf(TeamsView(), selectedFormat)))
    {
      var ok := ValidateTeamAssignment();
      if !ok {
        return None;
      }
      match backend
      case Failure(e) =>
        errorMessage := ServerFailurePrefix + e;
        showError := true;
        return None;
      case Success(debateId) =>
        return Some(DebateSession(id, motion, selectedFormat, studentLevel, speechTimeSeconds, replyTimeSeconds, now,
                                  teacherId.None?, teacherId, selectedClassId, selectedScheduleId, Some(debateId),
                                  Some(CompositionOf(TeamsView(), selectedFormat))));
    }

    /** `applySuggestedMotion`. */
    method ApplySuggestedMotion(suggested: Option<string>, fallback: Option<string>)
      modifies this`motion
      ensures motion == SuggestedMotion(old(motion), suggested, fallback)
    {
      if suggested.Some? && Trim(suggested.value) != [] {
        motion := Trim(suggested.value);
      } else if fallback.Some? && Trim(fallback.value) != [] {
        motion := Trim(fallback.value);
      }
    }

    /** The option lists `applySchedule` derives from a schedule response. */
    method ApplyScheduleOptions(primary: ClassOption, provided: Option<seq<ClassOption>>,
                                alternatives: Option<seq<ClassOption>>)
      modifies this`selectedScheduleId, this`availableClasses, this`availableAlternatives
      ensures selectedScheduleId.None?
      ensures availableClasses == ClassOptionsSpec(provided, primary)
      ensures availableAlternatives == Dedupe(alternatives.GetOr([]), {primary.classId})
    {
      selectedScheduleId := None;
      availableClasses := BuildClassOptions(provided, primary);
      availableAlternatives := FilterAlternatives(alternatives, primary.classId);
    }

    /**
     * `restoreStateFromSession` in the setup view: the session's form
     * fields, its students, the teams rebuilt from the stored ids when both
     * a composition and students exist, and the team-assignment step.
     */
    method RestoreFromSession(session: DebateSession, sessionStudents: Option<seq<Student>>)
      modifies this`motion, this`selectedFormat, this`studentLevel, this`speechTimeSeconds, this`students,
               this`currentStep, this`propTeam, this`oppTeam, this`ogTeam, this`ooTeam, this`cgTeam, this`coTeam
      ensures motion == session.motion && selectedFormat == session.format && studentLevel == session.studentLevel
      ensures speechTimeSeconds == session.speechTimeSeconds
      ensures students == sessionStudents.GetOr(old(students))
      ensures TeamsView() == RestoredTeams(session.teamComposition, sessionStudents, old(TeamsView()))
      ensures currentStep == TeamAssignment
    {
      var ts := RestoredTeams(session.teamComposition, sessionStudents, TeamsView());
      motion := session.motion;
      selectedFormat := session.format;
      studentLevel := session.studentLevel;
      speechTimeSeconds := session.speechTimeSeconds;
      students := sessionStudents.GetOr(students);
      currentStep := TeamAssignment;
      SetTeams(ts);
    }
  }

  /** The teams a restored session shows: rebuilt from the stored ids when there are both a composition and students. */
  function RestoredTeams(c: Option<TeamComposition>, all: Option<seq<Student>>, current: Teams): (r: Teams)
    ensures c.None? || all.None? ==> r == current
  {
    if c.Some? && all.Some? then
      Teams(FindStudents(c.value.prop, all.value), FindStudents(c.value.opp, all.value),
            FindStudents(c.value.og, all.value), FindStudents(c.value.oo, all.value),
            FindStudents(c.value.cg, all.value), FindStudents(c.value.co, all.value))
    else current
  }
}
