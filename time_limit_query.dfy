// Class progress report over the time-limited practice tests ("限时练"):
// per-student rank deltas, the total progress, the stable descending sort and
// the split into improved and unchanged students, plus the two menu choices
// that pick how many tests to look at.

module TimeLimitQuery {
  import opened Common
  import opened Ordering

  datatype Student = Student(id: int, number: string, name: string)

  /** A row of TimeLimitExams; the exam list is given newest first. */
  datatype Exam = Exam(id: int, name: string, date: string)

  /**
   * A row of the TimeLimitScores / TimeLimitExams join. The join is given in
   * ascending ExamDate order, the order the database returns it in.
   */
  datatype ScoreRow = ScoreRow(studentId: int, examId: int, examName: string, examDate: string,
                               gradeRank: Option<int>, classRank: Option<int>)

  datatype ScoreChange = ScoreChange(examName: string, examDate: string, gradeRank: int, classRank: int,
                                     change: string)

  datatype Progress = Progress(studentName: string, studentNumber: string, totalProgress: int,
                               scoreChanges: seq<ScoreChange>)

  /** The change text for a rank difference `d = previous - current`. */
  function ChangeLabel(d: int): string
  {
    if d > 0 then "↑+" + IntToString(d)
    else if d < 0 then "↓" + IntToString(-d)
    else "→0"
  }

  /** Reads a change text back; the first test's "-" has no difference. */
  function ParseChangeLabel(s: string): Option<int>
  {
    if |s| >= 2 && s[0] == '↑' && s[1] == '+' && IsDigitString(s[2..]) && DigitsValue(s[2..]) > 0 then Some(DigitsValue(s[2..]))
    else if |s| >= 1 && s[0] == '↓' && IsDigitString(s[1..]) && DigitsValue(s[1..]) > 0 then Some(-(DigitsValue(s[1..]) as int))
    else if s == "→0" then Some(0)
    else None
  }

  /** Every label reads back as the difference it was made from, so distinct differences get distinct labels. */
  lemma ChangeLabelRoundTrip(d: int)
    ensures ParseChangeLabel(ChangeLabel(d)) == Some(d)
    ensures ParseChangeLabel("-") == None
  {
    if d > 0 {
      RiseLabelReadsBack(d);
    } else if d < 0 {
      FallLabelReadsBack(d);
    } else {
      assert ChangeLabel(d) == "→0";
    }
  }

  /** A rise in rank reads back from its "↑+" label. */
  lemma RiseLabelReadsBack(d: int)
    requires d > 0
    ensures ParseChangeLabel(ChangeLabel(d)) == Some(d)
  {
    var s := ChangeLabel(d);
    assert s == "↑+" + NatToString(d);
    SignedLabelRoundTrip("↑+", d);
    assert |s| >= 2 && s[0] == '↑' && s[1] == '+';
  }

  /** A fall in rank reads back from its "↓" label. */
  lemma FallLabelReadsBack(d: int)
    requires d < 0
    ensures ParseChangeLabel(ChangeLabel(d)) == Some(d)
  {
    var s := ChangeLabel(d);
    assert s == "↓" + NatToString(-d);
    SignedLabelRoundTrip("↓", -d);
    assert |s| >= 1 && s[0] == '↓';
  }

  /** A marker followed by the digits of `n` has those digits, and their value, after the marker. */
  lemma SignedLabelRoundTrip(marker: string, n: nat)
    ensures var s := marker + NatToString(n);
            s[|marker|..] == NatToString(n) && IsDigitString(s[|marker|..]) && DigitsValue(s[|marker|..]) == n
  {
    NatToStringValue(n);
    assert (marker + NatToString(n))[|marker|..] == NatToString(n);
  }

  /** The entry for the i-th fetched score: ranks with the 999 default and the change from the previous test. */
  function ChangeAt(rows: seq<ScoreRow>, i: nat): ScoreChange
    requires i < |rows|
  {
    ScoreChange(rows[i].examName, rows[i].examDate, RankOr999(rows[i].gradeRank), RankOr999(rows[i].classRank),
                if i == 0 then "-" else ChangeLabel(RankOr999(rows[i - 1].gradeRank) - RankOr999(rows[i].gradeRank)))
  }

  /** Total progress in closed form: first grade rank minus last grade rank, 0 without rows. */
  function NetProgress(rows: seq<ScoreRow>): int
  {
    if |rows| == 0 then 0 else RankOr999(rows[0].gradeRank) - RankOr999(rows[|rows| - 1].gradeRank)
  }

  /** The change entries of all fetched scores, in order. */
  function Changes(rows: seq<ScoreRow>): (changes: seq<ScoreChange>)
    ensures |changes| == |rows|
  {
    seq(|rows|, i requires 0 <= i < |rows| => ChangeAt(rows, i))
  }

  function ProgressOf(s: Student, rows: seq<ScoreRow>): Progress
  {
    Progress(s.name, s.number, NetProgress(rows), Changes(rows))
  }

  /** The loop state after `i` fetched scores: their change entries, and the rank gained since the first. */
  ghost predicate ProgressSoFar(rows: seq<ScoreRow>, i: nat, changes: seq<ScoreChange>, total: int)
    requires i <= |rows|
  {
    && changes == Changes(rows)[..i]
    && total == (if i == 0 then 0 else RankOr999(rows[0].gradeRank) - RankOr999(rows[i - 1].gradeRank))
  }

  /** Taking score `i`: its entry is appended and the step's rank change added (the first score adds none). */
  lemma ProgressStep(rows: seq<ScoreRow>, i: nat, changes: seq<ScoreChange>, total: int, entry: ScoreChange, total': int)
    requires i < |rows| && ProgressSoFar(rows, i, changes, total)
    requires entry == ChangeAt(rows, i)
    requires total' == if i == 0 then 0 else total + (RankOr999(rows[i - 1].gradeRank) - RankOr999(rows[i].gradeRank))
    ensures ProgressSoFar(rows, i + 1, changes + [entry], total')
  {
    PrefixSnoc(Changes(rows), i);
  }

  /**
   * The per-student loop: one change entry per fetched score and a running
   * total of the step-by-step rank improvements, which telescopes to the
   * first rank minus the last.
   */
  method StudentProgress(s: Student, rows: seq<ScoreRow>) returns (p: Progress)
    ensures p.studentName == s.name && p.studentNumber == s.number
    ensures |p.scoreChanges| == |rows|
    ensures forall i :: 0 <= i < |rows| ==> p.scoreChanges[i] == ChangeAt(rows, i)
    ensures |rows| > 0 ==> p.totalProgress == RankOr999(rows[0].gradeRank) - RankOr999(rows[|rows| - 1].gradeRank)
    ensures p == ProgressOf(s, rows)
  {
    var changes: seq<ScoreChange> := [];
    var total := 0;
    var i := 0;
    while i < |rows|
      invariant 0 <= i <= |rows|
      invariant ProgressSoFar(rows, i, changes, total)
    {
      var gradeRank := RankOr999(rows[i].gradeRank);
      var classRank := RankOr999(rows[i].classRank);
      var changeStr: string;
      ghost var before := total;
      if i > 0 {
        var prevRank := RankOr999(rows[i - 1].gradeRank);
        var change := prevRank - gradeRank;
        total := total + change;
        changeStr := ChangeLabel(change);
      } else {
        changeStr := "-";
        total := 0;
      }
      var entry := ScoreChange(rows[i].examName, rows[i].examDate, gradeRank, classRank, changeStr);
      ProgressStep(rows, i, changes, before, entry, total);
      changes := changes + [entry];
      i := i + 1;
    }
    assert changes == Changes(rows);
    p := Progress(s.name, s.number, total, changes);
  }

  function ExamIds(exams: seq<Exam>): (ids: seq<int>)
    ensures |ids| == |exams|
    ensures forall i :: 0 <= i < |exams| ==> ids[i] == exams[i].id
  {
    if |exams| == 0 then [] else ExamIds(exams[..|exams| - 1]) + [exams[|exams| - 1].id]
  }

  /** The per-student query: that student's rows among the selected tests, in join order. */
  function FetchScores(join: seq<ScoreRow>, studentId: int, examIds: seq<int>): (rows: seq<ScoreRow>)
    ensures forall r :: r in rows ==> r in join && r.studentId == studentId && r.examId in examIds
  {
    Filter(join, (r: ScoreRow) => r.studentId == studentId && r.examId in examIds)
  }

  /** detailed_progress before sorting: one entry per student with at least two fetched scores. */
  function Collect(students: seq<Student>, join: seq<ScoreRow>, examIds: seq<int>): seq<Progress>
  {
    if |students| == 0 then []
    else
      var s := students[|students| - 1];
      var rows := FetchScores(join, s.id, examIds);
      Collect(students[..|students| - 1], join, examIds) + (if |rows| >= 2 then [ProgressOf(s, rows)] else [])
  }

  /** Students with fewer than two scores are left out, so every entry has at least two changes. */
  lemma {:induction false} CollectLeavesOutShortHistories(students: seq<Student>, join: seq<ScoreRow>, examIds: seq<int>)
    ensures |Collect(students, join, examIds)| <= |students|
    ensures forall p :: p in Collect(students, join, examIds) ==> |p.scoreChanges| >= 2
  {
    if |students| > 0 {
      CollectLeavesOutShortHistories(students[..|students| - 1], join, examIds);
    }
  }

  // ---------------------------------------------------------------------------
  // Stable sort by total progress, largest first; split into improved and
  // unchanged students
  // ---------------------------------------------------------------------------

  function TotalOf(p: Progress): int { p.totalProgress }

  predicate Improved(p: Progress) { p.totalProgress > 0 }

  predicate Unchanged(p: Progress) { p.totalProgress == 0 }

  /**
   * The closing loop: improved students (total > 0) and unchanged students
   * (total = 0), each in the order of the sorted list; declined students are
   * in neither list.
   */
  method SplitProgress(detailed: seq<Progress>) returns (noChange: seq<Progress>, recent: seq<Progress>)
    ensures recent == Filter(detailed, Improved)
    ensures noChange == Filter(detailed, Unchanged)
    ensures SortedDescBy(detailed, TotalOf) ==> SortedDescBy(recent, TotalOf) && SortedDescBy(noChange, TotalOf)
    ensures forall p :: p in recent ==> p.totalProgress > 0
    ensures forall p :: p in noChange ==> p.totalProgress == 0
  {
    noChange := [];
    recent := [];
    var i := 0;
    while i < |detailed|
      invariant 0 <= i <= |detailed|
      invariant recent == Filter(detailed[..i], Improved)
      invariant noChange == Filter(detailed[..i], Unchanged)
    {
      assert detailed[..i + 1][..i] == detailed[..i];
      var dp := detailed[i];
      if dp.totalProgress > 0 {
        recent := recent + [dp];
      } else if dp.totalProgress == 0 {
        noChange := noChange + [dp];
      }
      i := i + 1;
    }
    assert detailed[..i] == detailed;
    if SortedDescBy(detailed, TotalOf) {
      FilterKeepsSorted(detailed, Improved, TotalOf);
      FilterKeepsSorted(detailed, Unchanged, TotalOf);
    }
  }

  /**
   * get_class_time_limit_progress. `students` is the class roster, `allExams`
   * every time-limited test newest first, `join` the score/test join in
   * ascending date order, and `examCount` the window size.
   */
  method ClassTimeLimitProgress(students: seq<Student>, allExams: seq<Exam>, join: seq<ScoreRow>, examCount: int)
    returns (detailed: seq<Progress>, noChange: seq<Progress>, recent: seq<Progress>)
    ensures |students| == 0 || |allExams| < 2 ==> detailed == [] && noChange == [] && recent == []
    ensures |students| > 0 && |allExams| >= 2 ==>
      var collected := Collect(students, join, ExamIds(PySliceTo(allExams, examCount)));
      && detailed == SortDescBy(collected, TotalOf)
    ensures forall p :: p in detailed ==> |p.scoreChanges| >= 2
    ensures recent == Filter(detailed, Improved) && noChange == Filter(detailed, Unchanged)
    ensures SortedDescBy(detailed, TotalOf) && SortedDescBy(recent, TotalOf) && SortedDescBy(noChange, TotalOf)
  {
    if |students| == 0 {
      return [], [], [];
    }
    if |allExams| < 2 {
      return [], [], [];
    }
    var exams := PySliceTo(allExams, examCount);
    var examIds := ExamIds(exams);
    var collected: seq<Progress> := [];
    var s := 0;
    while s < |students|
      invariant 0 <= s <= |students|
      invariant collected == Collect(students[..s], join, examIds)
    {
      assert students[..s + 1][..s] == students[..s];
      var rows := FetchScores(join, students[s].id, examIds);
      if |rows| >= 2 {
        var p := StudentProgress(students[s], rows);
        collected := collected + [p];
      }
      s := s + 1;
    }
    assert students[..s] == students;
    CollectLeavesOutShortHistories(students, join, examIds);
    detailed := StableSortDesc(collected, TotalOf);
    assert forall p :: p in detailed ==> p in multiset(collected);
    noChange, recent := SplitProgress(detailed);
  }

  // ---------------------------------------------------------------------------
  // Menu choices
  // ---------------------------------------------------------------------------

  /** query_by_student: '1' -> 3, '2' -> 5, '3' -> 10 most recent tests; anything else means all of them (None). */
  function StudentWindow(choice: string): (limit: Option<int>)
    ensures limit.Some? <==> choice == "1" || choice == "2" || choice == "3"
    ensures limit.Some? ==> limit.value in {3, 5, 10}
    ensures choice == "1" ==> limit == Some(3)
    ensures choice == "2" ==> limit == Some(5)
    ensures choice == "3" ==> limit == Some(10)
  {
    var limitMap := map["1" := Some(3), "2" := Some(5), "3" := Some(10), "4" := None];
    if choice in limitMap then limitMap[choice] else None
  }

  /** query_by_class: the stripped answer, 3 when empty or not all digits, then clamped to [2, 5]. */
  function ClassWindow(answer: string): (n: int)
    ensures 2 <= n <= 5
  {
    var text := WindowText(StripPy(answer));
    Min(5, Max(2, PyInt(text).value))
  }

  /** The answer that is read as a number: "3" when it is empty or not all digits. */
  function WindowText(examCount: string): (text: string)
    ensures IsDigitString(text) && PyInt(text) == Some(DigitsValue(text) as int)
    ensures IsDigitString(examCount) ==> text == examCount
  {
    var text := if |examCount| == 0 || !IsDigitString(examCount) then DefaultWindowText(); "3" else examCount;
    PyIntOfDigits(text);
    text
  }

  /** A non-numeric or empty answer means 3 tests; a number is clamped to [2, 5]. */
  lemma ClassWindowValue(answer: string)
    ensures !IsDigitString(StripPy(answer)) ==> ClassWindow(answer) == 3
    ensures IsDigitString(StripPy(answer)) ==> ClassWindow(answer) == Min(5, Max(2, DigitsValue(StripPy(answer))))
  {
    var examCount := StripPy(answer);
    DefaultWindowText();
    PyIntOfDigits("3");
    if IsDigitString(examCount) {
      PyIntOfDigits(examCount);
    }
  }

  /** The default answer "3" is a digit string worth 3. */
  lemma DefaultWindowText()
    ensures IsDigitString("3") && DigitsValue("3") == 3
  {
    assert IsAsciiDigit("3"[0]);
  }
}
