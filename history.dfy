// The iOS debate history screen (HistoryListView.swift): search and
// filters over the stored sessions, the summary statistics, and the
// two-step deletion of a session with its recordings and students.

module History {
  import opened Wrappers
  import opened Text
  import opened Statuses
  import opened Formats
  import opened Models
  import opened IosCards

  /** A stored `DebateSession` as the history screen sees it, with its related students and recordings. */
  datatype HistorySession = HistorySession(
    id: string,
    motion: string,
    format: DebateFormat,
    studentLevel: StudentLevel,
    createdAt: int,
    students: Option<seq<Student>>,
    recordings: Option<seq<CardRecording>>)

  // ------------------------------------------------------------ search and filters

  /** `localizedCaseInsensitiveContains`, with case folded on ASCII letters. */
  predicate ContainsIgnoringCase(s: string, sub: string)
  {
    Contains(Lower(s), Lower(sub))
  }

  /** The search part of the filter: no search text, or the motion or some student's name contains it. */
  predicate MatchesSearch(s: HistorySession, searchText: string)
  {
    || searchText == []
    || ContainsIgnoringCase(s.motion, searchText)
    || (s.students.Some? && exists st :: st in s.students.value && ContainsIgnoringCase(st.name, searchText))
  }

  /** A session passes when the search, the format filter and the level filter all accept it. */
  predicate Matches(s: HistorySession, searchText: string, format: Option<DebateFormat>, level: Option<StudentLevel>)
  {
    && MatchesSearch(s, searchText)
    && (format.None? || format == Some(s.format))
    && (level.None? || level == Some(s.studentLevel))
  }

  /** `filteredSessions`: the sessions that match, in the query's order. */
  function FilteredSessions(all: seq<HistorySession>, searchText: string,
                            format: Option<DebateFormat>, level: Option<StudentLevel>): (r: seq<HistorySession>)
    ensures |r| <= |all|
    ensures forall s :: s in r <==> s in all && Matches(s, searchText, format, level)
  {
    if all == [] then []
    else
      var rest := FilteredSessions(all[1..], searchText, format, level);
      assert forall s :: s in all <==> s == all[0] || s in all[1..];
      if Matches(all[0], searchText, format, level) then [all[0]] + rest else rest
  }

  /** `xs` is `ys` with some elements left out and the rest in their order. */
  predicate IsSubsequence<T(==)>(xs: seq<T>, ys: seq<T>)
    decreases |ys|
  {
    if xs == [] then true
    else if ys == [] then false
    else if xs[0] == ys[0] then IsSubsequence(xs[1..], ys[1..])
    else IsSubsequence(xs, ys[1..])
  }

  /** Filtering keeps the order of the stored sessions. */
  lemma {:induction false} FilteredIsSubsequence(all: seq<HistorySession>, searchText: string,
                                                 format: Option<DebateFormat>, level: Option<StudentLevel>)
    ensures IsSubsequence(FilteredSessions(all, searchText, format, level), all)
  {
    if all != [] {
      FilteredIsSubsequence(all[1..], searchText, format, level);
      var rest := FilteredSessions(all[1..], searchText, format, level);
      if !Matches(all[0], searchText, format, level) {
        SubsequenceSkip(rest, all[0], all[1..]);
      }
    }
  }

  /** A subsequence stays one when an element is put in front of the longer list. */
  lemma {:induction false} SubsequenceSkip<T>(xs: seq<T>, y: T, ys: seq<T>)
    requires IsSubsequence(xs, ys)
    ensures IsSubsequence(xs, [y] + ys)
    decreases |ys|, 1
  {
    if xs != [] {
      assert ([y] + ys)[1..] == ys;
      if xs[0] == y {
        SubsequenceTail(xs, ys);
      }
    }
  }

  /** Dropping the first element of a subsequence leaves a subsequence. */
  lemma {:induction false} SubsequenceTail<T>(xs: seq<T>, ys: seq<T>)
    requires xs != [] && IsSubsequence(xs, ys)
    ensures IsSubsequence(xs[1..], ys)
    decreases |ys|, 0
  {
    assert ys == [ys[0]] + ys[1..];
    if xs[0] == ys[0] {
      SubsequenceSkip(xs[1..], ys[0], ys[1..]);
    } else {
      SubsequenceTail(xs, ys[1..]);
      SubsequenceSkip(xs[1..], ys[0], ys[1..]);
    }
  }

  /** With no search text and cleared filters, every session is shown. */
  lemma {:induction false} ClearedFiltersShowAll(all: seq<HistorySession>)
    ensures FilteredSessions(all, [], None, None) == all
  {
    if all != [] {
      ClearedFiltersShowAll(all[1..]);
    }
  }

  /** Setting a format filter only narrows the list. */
  lemma {:induction false} FormatFilterNarrows(all: seq<HistorySession>, searchText: string,
                                               f: DebateFormat, level: Option<StudentLevel>)
    ensures IsSubsequence(FilteredSessions(all, searchText, Some(f), level), FilteredSessions(all, searchText, None, level))
  {
    if all != [] {
      FormatFilterNarrows(all[1..], searchText, f, level);
      var narrow := FilteredSessions(all[1..], searchText, Some(f), level);
      var wide := FilteredSessions(all[1..], searchText, None, level);
      if Matches(all[0], searchText, None, level) && !Matches(all[0], searchText, Some(f), level) {
        SubsequenceSkip(narrow, all[0], wide);
      }
    }
  }

  // ------------------------------------------------------------ statistics

  /** The names of one session's students (none when the relation is nil). */
  function SessionNames(s: HistorySession): set<string>
  {
    if s.students.None? then {} else set k | 0 <= k < |s.students.value| :: s.students.value[k].name
  }

  /** The distinct student names over a list of sessions. */
  function StudentNames(all: seq<HistorySession>): set<string>
  {
    if all == [] then {} else StudentNames(all[..|all| - 1]) + SessionNames(all[|all| - 1])
  }

  /** The number of students over a list of sessions, counting each occurrence. */
  function StudentCount(all: seq<HistorySession>): nat
  {
    if all == [] then 0
    else StudentCount(all[..|all| - 1]) + (if all[|all| - 1].students.None? then 0 else |all[|all| - 1].students.value|)
  }

  /** A name is counted exactly when some session has a student with that name. */
  lemma {:induction false} StudentNamesMembers(all: seq<HistorySession>, name: string)
    ensures name in StudentNames(all) <==>
      exists i, k :: 0 <= i < |all| && all[i].students.Some? && 0 <= k < |all[i].students.value|
        && all[i].students.value[k].name == name
  {
    if all != [] {
      var init := all[..|all| - 1];
      StudentNamesMembers(init, name);
      if name in StudentNames(all) {
        if name in StudentNames(init) {
          var i, k :| 0 <= i < |init| && init[i].students.Some? && 0 <= k < |init[i].students.value|
            && init[i].students.value[k].name == name;
          assert all[i] == init[i];
        } else {
          var last := all[|all| - 1];
          var k :| 0 <= k < |last.students.value| && last.students.value[k].name == name;
        }
      } else {
        forall i, k | 0 <= i < |all| && all[i].students.Some? && 0 <= k < |all[i].students.value|
          ensures all[i].students.value[k].name != name
        {
          if i < |all| - 1 {
            assert all[i] == init[i];
          }
        }
      }
    }
  }

  /** Distinct names never outnumber the students they come from. */
  lemma {:induction false} UniqueStudentsAtMostStudents(all: seq<HistorySession>)
    ensures |StudentNames(all)| <= StudentCount(all)
  {
    if all != [] {
      var init := all[..|all| - 1];
      var last := all[|all| - 1];
      UniqueStudentsAtMostStudents(init);
      if last.students.Some? {
        NamesAtMostStudents(last.students.value, |last.students.value|);
      }
      assert |StudentNames(init) + SessionNames(last)| <= |StudentNames(init)| + |SessionNames(last)|;
    }
  }

  /** The names of the first `n` students number at most `n`. */
  lemma {:induction false} NamesAtMostStudents(students: seq<Student>, n: nat)
    requires n <= |students|
    ensures |set k | 0 <= k < n :: students[k].name| <= n
  {
    if n > 0 {
      NamesAtMostStudents(students, n - 1);
      var before := set k | 0 <= k < n - 1 :: students[k].name;
      assert (set k | 0 <= k < n :: students[k].name) == before + {students[n - 1].name};
    }
  }

  /** `totalUniqueStudents`: the nested loops insert every student's name into a set and count it. */
  method TotalUniqueStudents(all: seq<HistorySession>) returns (count: nat)
    ensures count == |StudentNames(all)|
  {
    var names: set<string> := {};
    var i := 0;
    while i < |all|
      invariant 0 <= i <= |all|
      invariant names == StudentNames(all[..i])
    {
      var session := all[i];
      if session.students.Some? {
        var students := session.students.value;
        var j := 0;
        while j < |students|
          invariant 0 <= j <= |students|
          invariant names == StudentNames(all[..i]) + set k | 0 <= k < j :: students[k].name
        {
          names := names + {students[j].name};
          j := j + 1;
        }
      }
      assert all[..i + 1][..i] == all[..i];
      i := i + 1;
    }
    assert all[..|all|] == all;
    count := |names|;
  }

  /** The number of recordings of one session, nil counting as none. */
  function RecordingCount(s: HistorySession): nat
  {
    if s.recordings.None? then 0 else |s.recordings.value|
  }

  /** `totalRecordings`: the recording counts summed over the sessions. */
  function TotalRecordings(all: seq<HistorySession>): nat
  {
    if all == [] then 0 else RecordingCount(all[0]) + TotalRecordings(all[1..])
  }

  /** The total splits over any division of the list. */
  lemma {:induction false} TotalRecordingsAppend(a: seq<HistorySession>, b: seq<HistorySession>)
    ensures TotalRecordings(a + b) == TotalRecordings(a) + TotalRecordings(b)
  {
    if a != [] {
      var ab := a + b;
      assert ab[0] == a[0] && ab[1..] == a[1..] + b;
      TotalRecordingsAppend(a[1..], b);
      assert TotalRecordings(ab) == RecordingCount(a[0]) + TotalRecordings(a[1..] + b);
    } else {
      assert a + b == b;
    }
  }

  /** The total is zero exactly when no session has a recording. */
  lemma {:induction false} NoRecordingsIffZero(all: seq<HistorySession>)
    ensures TotalRecordings(all) == 0 <==> forall s :: s in all ==> RecordingCount(s) == 0
  {
    if all != [] {
      NoRecordingsIffZero(all[1..]);
      assert forall s :: s in all <==> s == all[0] || s in all[1..];
    }
  }

  /** The number of recordings whose feedback has completed. */
  function FeedbackCompleteCount(rs: seq<CardRecording>): (n: nat)
    ensures n <= |rs|
  {
    if rs == [] then 0
    else (if rs[0].feedbackStatus == ProcessingStatus.Complete then 1 else 0) + FeedbackCompleteCount(rs[1..])
  }

  /** `HistoryCard.completionRate`: zero without recordings, else the share whose feedback is complete. */
  function CompletionRate(s: HistorySession): real
  {
    if s.recordings.None? || s.recordings.value == [] then 0.0
    else FeedbackCompleteCount(s.recordings.value) as real / |s.recordings.value| as real
  }

  lemma {:induction false} FeedbackCompleteAll(rs: seq<CardRecording>)
    ensures FeedbackCompleteCount(rs) == |rs| <==> forall r :: r in rs ==> r.feedbackStatus == ProcessingStatus.Complete
  {
    if rs != [] {
      FeedbackCompleteAll(rs[1..]);
      assert forall r :: r in rs <==> r == rs[0] || r in rs[1..];
    }
  }

  /** The rate lies in [0, 1], and is 1 exactly when there are recordings and every one has feedback. */
  lemma CompletionRateBounds(s: HistorySession)
    ensures 0.0 <= CompletionRate(s) <= 1.0
    ensures CompletionRate(s) == 1.0 <==>
      s.recordings.Some? && s.recordings.value != []
      && forall r :: r in s.recordings.value ==> r.feedbackStatus == ProcessingStatus.Complete
  {
    if s.recordings.Some? && s.recordings.value != [] {
      var rs := s.recordings.value;
      FeedbackCompleteAll(rs);
      var c := FeedbackCompleteCount(rs) as real;
      var n := |rs| as real;
      assert c <= n;
      RatioBounds(c, n);
    }
  }

  /** The percentage the card prints, `Int(completionRate * 100)`: the rate scaled and truncated toward zero. */
  function CompletionPercent(s: HistorySession): (p: int)
    ensures 0 <= p <= 100
    ensures p == 100 <==> (s.recordings.Some? && s.recordings.value != []
                           && forall r :: r in s.recordings.value ==> r.feedbackStatus == ProcessingStatus.Complete)
  {
    CompletionRateBounds(s);
    var scaled := CompletionRate(s) * 100.0;
    assert scaled == 100.0 <==> CompletionRate(s) == 1.0;
    scaled.Floor
  }

  /** A share of a positive whole lies in [0, 1] and is 1 exactly when it is the whole. */
  lemma RatioBounds(c: real, n: real)
    requires 0.0 <= c <= n && n > 0.0
    ensures 0.0 <= c / n <= 1.0
    ensures c / n == 1.0 <==> c == n
  {
    var q := c / n;
    assert q * n == c;
    ScaleByFactor(q, n);
  }

  /** Scaling a positive number by a factor below one, above one, or below zero. */
  lemma ScaleByFactor(q: real, n: real)
    requires n > 0.0
    ensures q < 1.0 ==> q * n < n
    ensures q > 1.0 ==> q * n > n
    ensures q < 0.0 ==> q * n < 0.0
  {
  }

  // ------------------------------------------------------------ deletion

  /** The sessions other than the one with the given id. */
  function WithoutSession(all: seq<HistorySession>, id: string): (r: seq<HistorySession>)
    ensures |r| <= |all|
    ensures forall s :: s in r <==> s in all && s.id != id
  {
    if all == [] then []
    else
      var rest := WithoutSession(all[1..], id);
      assert forall s :: s in all <==> s == all[0] || s in all[1..];
      if all[0].id == id then rest else [all[0]] + rest
  }

  /** The ids of a session's related recordings. */
  function RecordingIds(s: HistorySession): set<string>
  {
    if s.recordings.None? then {} else set k | 0 <= k < |s.recordings.value| :: s.recordings.value[k].id
  }

  /** The ids of a session's related students. */
  function StudentIds(s: HistorySession): set<string>
  {
    if s.students.None? then {} else set k | 0 <= k < |s.students.value| :: s.students.value[k].id
  }

  /**
   * The history screen's state: the stored sessions, the recordings and
   * students held by the model context (by id), the search and filter
   * fields, and the deletion in progress.
   */
  class HistoryScreen {
    var sessions: seq<HistorySession>
    var recordingIds: set<string>
    var studentIds: set<string>
    var searchText: string
    var selectedFormat: Option<DebateFormat>
    var selectedLevel: Option<StudentLevel>
    var sessionToDelete: Option<HistorySession>
    var showDeleteConfirmation: bool

    constructor(sessions: seq<HistorySession>, recordingIds: set<string>, studentIds: set<string>)
      ensures this.sessions == sessions && this.recordingIds == recordingIds && this.studentIds == studentIds
      ensures searchText == [] && selectedFormat.None? && selectedLevel.None?
      ensures sessionToDelete.None? && !showDeleteConfirmation
    {
      this.sessions := sessions;
      this.recordingIds := recordingIds;
      this.studentIds := studentIds;
      searchText := [];
      selectedFormat := None;
      selectedLevel := None;
      sessionToDelete := None;
      showDeleteConfirmation := false;
    }

    /** The list the screen shows. */
    function Shown(): seq<HistorySession>
      reads this
    {
      FilteredSessions(sessions, searchText, selectedFormat, selectedLevel)
    }

    /** `clearFilters`: clears the format and level filters; the search text stays. */
    method ClearFilters()
      modifies this`selectedFormat, this`selectedLevel
      ensures selectedFormat.None? && selectedLevel.None?
    {
      selectedFormat := None;
      selectedLevel := None;
    }

    /**
     * `deleteSessions(at:)`: the swipe offsets form an `IndexSet` (ascending,
     * within the shown list); only the first is taken, and the deletion
     * waits for confirmation.
     */
    method DeleteSessions(offsets: seq<int>)
      requires forall k :: 0 <= k < |offsets| ==> 0 <= offsets[k] < |Shown()|
      requires forall k, m :: 0 <= k < m < |offsets| ==> offsets[k] < offsets[m]
      modifies this`sessionToDelete, this`showDeleteConfirmation
      ensures offsets == [] ==> sessionToDelete == old(sessionToDelete) && showDeleteConfirmation == old(showDeleteConfirmation)
      ensures offsets != [] ==> sessionToDelete == Some(old(Shown())[offsets[0]]) && showDeleteConfirmation
    {
      if offsets == [] {
        return;
      }
      sessionToDelete := Some(Shown()[offsets[0]]);
      showDeleteConfirmation := true;
    }

    /**
     * `deleteSession`: without a pending session nothing happens; otherwise
     * its recordings, then its students, then the session itself leave the
     * store, and the pending deletion is cleared.
     */
    method DeleteSession()
      modifies this`sessions, this`recordingIds, this`studentIds, this`sessionToDelete
      ensures old(sessionToDelete).None? ==>
        sessions == old(sessions) && recordingIds == old(recordingIds) && studentIds == old(studentIds)
        && sessionToDelete.None?
      ensures old(sessionToDelete).Some? ==>
        var s := old(sessionToDelete).value;
        && recordingIds == old(recordingIds) - RecordingIds(s)
        && studentIds == old(studentIds) - StudentIds(s)
        && sessions == WithoutSession(old(sessions), s.id)
        && sessionToDelete.None?
    {
      if sessionToDelete.None? {
        return;
      }
      var session := sessionToDelete.value;
      var remainingRecordings := recordingIds;
      if session.recordings.Some? {
        var recs := session.recordings.value;
        var i := 0;
        while i < |recs|
          invariant 0 <= i <= |recs|
          invariant remainingRecordings == recordingIds - set k | 0 <= k < i :: recs[k].id
        {
          remainingRecordings := remainingRecordings - {recs[i].id};
          i := i + 1;
        }
      }
      var remainingStudents := studentIds;
      if session.students.Some? {
        var students := session.students.value;
        var j := 0;
        while j < |students|
          invariant 0 <= j <= |students|
          invariant remainingStudents == studentIds - set k | 0 <= k < j :: students[k].id
        {
          remainingStudents := remainingStudents - {students[j].id};
          j := j + 1;
        }
      }
      recordingIds := remainingRecordings;
      studentIds := remainingStudents;
      sessions := WithoutSession(sessions, session.id);
      sessionToDelete := None;
    }
  }

  /** After a deletion none of the session's recordings or students remain, and every other session is still listed. */
  lemma DeletionRemovesOnlyTheSession(all: seq<HistorySession>, recordingIds: set<string>, studentIds: set<string>,
                                      s: HistorySession, other: HistorySession)
    requires other in all && other.id != s.id
    ensures other in WithoutSession(all, s.id)
    ensures forall id :: id in RecordingIds(s) ==> id !in recordingIds - RecordingIds(s)
    ensures forall x :: x in WithoutSession(all, s.id) ==> x.id != s.id
  {
  }
}
