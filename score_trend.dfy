// The score-trend tool: the per-subject trend table, the change markers of the
// trend chart, the subject x test rank matrix of the multi-subject and
// comprehensive views, and the total-rank change summary.

module ScoreTrend {
  import opened Common
  import opened Ordering
  import TimeLimitQuery

  // ---------------------------------------------------------------------------
  // The trend table of one subject
  // ---------------------------------------------------------------------------

  /** One test of a student in one subject, in date order. */
  datatype TrendRow = TrendRow(examName: string, examDate: string, score: Option<real>, gradeRank: Option<int>)

  datatype Trend = Up | Down | Level

  /** A printed line; the first line has no change and no trend. */
  datatype TrendLine = TrendLine(examName: string, examDate: string, rankText: string,
                                 changeText: string, trend: Option<Trend>)

  /**
   * TooFew: the "only one test" notice. RankMissing: the subtraction of a
   * missing rank raises, after the lines before row `row` were printed.
   */
  datatype TrendOutcome = TooFew | Table(lines: seq<TrendLine>) | RankMissing(row: nat)

  function TrendOf(d: int): Trend
  {
    if d > 0 then Up else if d < 0 then Down else Level
  }

  /** `f"+{d}"` when positive, `f"{d}"` otherwise. */
  function SignedText(d: int): string
  {
    if d > 0 then "+" + IntToString(d) else IntToString(d)
  }

  /** The change text reads back as the change. */
  lemma SignedTextRoundTrip(d: int)
    ensures ParseSignedDigits(SignedText(d)) == Some(d)
  {
    SignedDigitsRoundTrip(d);
    if d > 0 {
      assert SignedText(d)[1..] == NatToString(d);
      NatToStringValue(d);
    }
  }

  /** `str(rank) if rank else '-'`. */
  function RankText(r: Option<int>): string
  {
    if r.Some? && r.value != 0 then IntToString(r.value) else "-"
  }

  /** The index of the first row without a grade rank, or |rows|. */
  function FirstMissingRank(rows: seq<TrendRow>): (k: nat)
    ensures k <= |rows|
    ensures k < |rows| ==> rows[k].gradeRank.None?
    ensures forall i :: 0 <= i < k ==> rows[i].gradeRank.Some?
  {
    if |rows| == 0 then 0
    else if rows[0].gradeRank.None? then 0
    else 1 + FirstMissingRank(rows[1..])
  }

  function TrendLineAt(rows: seq<TrendRow>, i: nat): TrendLine
    requires i < |rows|
    requires i > 0 ==> rows[i - 1].gradeRank.Some? && rows[i].gradeRank.Some?
  {
    var s := rows[i];
    if i == 0 then TrendLine(s.examName, s.examDate, RankText(s.gradeRank), "-", None)
    else
      var change := rows[i - 1].gradeRank.value - s.gradeRank.value;
      TrendLine(s.examName, s.examDate, RankText(s.gradeRank), SignedText(change), Some(TrendOf(change)))
  }

  /**
   * print_trend_summary. Row i > 0 compares the previous grade rank with its
   * own; the first missing rank a comparison reaches raises. Row 0 is
   * compared by row 1, so with two rows or more any missing rank raises.
   */
  function TrendSummary(rows: seq<TrendRow>): (out: TrendOutcome)
    ensures |rows| < 2 <==> out == TooFew
    ensures out.RankMissing? <==> |rows| >= 2 && FirstMissingRank(rows) < |rows|
    ensures out.RankMissing? ==> out.row == Max(1, FirstMissingRank(rows))
    ensures out.Table? ==> |out.lines| == |rows|
  {
    if |rows| < 2 then TooFew
    else
      var k := FirstMissingRank(rows);
      if k < |rows| then RankMissing(Max(1, k))
      else Table(seq(|rows|, i requires 0 <= i < |rows| => TrendLineAt(rows, i)))
  }

  /**
   * Each later line's trend is the sign of previous rank minus current rank,
   * and its change text reads back as that difference.
   */
  lemma TrendLinesFollowRanks(rows: seq<TrendRow>, i: nat)
    requires TrendSummary(rows).Table? && 0 < i < |rows|
    ensures var line := TrendSummary(rows).lines[i];
            var d := rows[i - 1].gradeRank.value - rows[i].gradeRank.value;
            && line.trend == Some(TrendOf(d))
            && ParseSignedDigits(line.changeText) == Some(d)
            && (line.trend == Some(Up) <==> d > 0)
  {
    var d := rows[i - 1].gradeRank.value - rows[i].gradeRank.value;
    SignedTextRoundTrip(d);
  }

  // ---------------------------------------------------------------------------
  // Change markers of the trend chart
  // ---------------------------------------------------------------------------

  /** `rank if rank else 0`: the chart draws a missing rank at 0. */
  function ChartRank(r: Option<int>): int
  {
    if r.Some? then r.value else 0
  }

  /**
   * The marker text: `↑+d` for a rise, `↓d` for a fall and `→0` otherwise.
   * A fall keeps its minus sign after the arrow, so the chart shows the
   * negative difference itself.
   */
  function MarkerLabel(d: int): string
  {
    if d > 0 then "↑+" + IntToString(d) else if d < 0 then "↓" + IntToString(d) else "→0"
  }

  /**
   * The chart and the text reports follow different conventions for a fall:
   * the chart draws "↓-3" where the time-limit report prints "↓3".
   */
  lemma MarkerLabelKeepsSign()
    ensures MarkerLabel(-3) == "↓-3"
    ensures MarkerLabel(-3) != TimeLimitQuery.ChangeLabel(-3)
  {
    assert IntToString(-3) == "-3";
    assert TimeLimitQuery.ChangeLabel(-3) == "↓3";
  }

  /**
   * A marker is an arrow giving the sign of the difference, followed by the
   * difference written as print_trend_summary writes it, so the text after
   * the arrow reads back as the difference itself.
   */
  lemma MarkerLabelReadsBack(d: int)
    ensures |MarkerLabel(d)| >= 2
    ensures MarkerLabel(d)[0] == (if d > 0 then '↑' else if d < 0 then '↓' else '→')
    ensures MarkerLabel(d)[1..] == SignedText(d)
    ensures ParseSignedDigits(MarkerLabel(d)[1..]) == Some(d)
  {
    if d > 0 {
      assert MarkerLabel(d) == "↑" + SignedText(d);
    } else if d < 0 {
      assert MarkerLabel(d) == "↓" + SignedText(d);
    } else {
      assert SignedText(0) == "0";
    }
    SignedTextRoundTrip(d);
  }

  /**
   * The markers between consecutive tests: one where both ranks are drawn
   * above 0, labelled by MarkerLabel with previous minus current rank.
   */
  function TrendMarkers(ranks: seq<Option<int>>): (markers: seq<Option<string>>)
    ensures |markers| == |ranks|
    ensures |ranks| > 0 ==> markers[0].None?
    ensures forall i :: 0 < i < |ranks| ==>
              (markers[i].Some? <==> ChartRank(ranks[i - 1]) > 0 && ChartRank(ranks[i]) > 0)
  {
    seq(|ranks|, i requires 0 <= i < |ranks| =>
      if i > 0 && ChartRank(ranks[i]) > 0 && ChartRank(ranks[i - 1]) > 0
      then Some(MarkerLabel(ChartRank(ranks[i - 1]) - ChartRank(ranks[i])))
      else None)
  }

  /**
   * Every marker's arrow is the sign of previous drawn rank minus current
   * drawn rank, and the text after the arrow reads back as that difference.
   */
  lemma TrendMarkersReadBack(ranks: seq<Option<int>>, i: nat)
    requires 0 < i < |ranks| && TrendMarkers(ranks)[i].Some?
    ensures var m := TrendMarkers(ranks)[i].value;
            var d := ChartRank(ranks[i - 1]) - ChartRank(ranks[i]);
            && |m| >= 2
            && (m[0] == '↑' <==> d > 0)
            && (m[0] == '↓' <==> d < 0)
            && ParseSignedDigits(m[1..]) == Some(d)
  {
    MarkerLabelReadsBack(ChartRank(ranks[i - 1]) - ChartRank(ranks[i]));
  }

  // ---------------------------------------------------------------------------
  // The subject x test rank matrix
  // ---------------------------------------------------------------------------

  /**
   * A row of the all-subjects query, in (ExamDate, SortOrder) order; `examDay`
   * is the ExamDate as a day number.
   */
  datatype SubjectRow = SubjectRow(examDay: int, examName: string, subjectName: string, sortOrder: int,
                                   gradeRank: Option<int>)

  predicate StrictlyAscending(s: seq<int>)
  {
    forall i, j :: 0 <= i < j < |s| ==> s[i] < s[j]
  }

  function InsertAscending(s: seq<int>, d: int): (r: seq<int>)
    requires StrictlyAscending(s)
    ensures StrictlyAscending(r)
    ensures forall x :: x in r <==> x in s || x == d
  {
    if |s| == 0 then [d]
    else if d == s[0] then s
    else if d < s[0] then [d] + s
    else
      var rest := InsertAscending(s[1..], d);
      assert s == [s[0]] + s[1..];
      ConsAscending(s[0], rest);
      [s[0]] + rest
  }

  lemma ConsAscending(a: int, rest: seq<int>)
    requires StrictlyAscending(rest) && forall x :: x in rest ==> a < x
    ensures StrictlyAscending([a] + rest)
    ensures forall x :: x in [a] + rest <==> x == a || x in rest
  {
    var r := [a] + rest;
    forall i, j | 0 <= i < j < |r|
      ensures r[i] < r[j]
    {
      assert r[j] == rest[j - 1] && rest[j - 1] in rest;
      if i > 0 {
        assert r[i] == rest[i - 1];
      }
    }
  }

  /** `sorted(set(days))`. */
  function SortedSet(days: seq<int>): (r: seq<int>)
    ensures StrictlyAscending(r)
    ensures forall x :: x in r <==> x in days
  {
    if |days| == 0 then []
    else
      assert days == days[..|days| - 1] + [days[|days| - 1]];
      InsertAscending(SortedSet(days[..|days| - 1]), days[|days| - 1])
  }

  function DaysOf(rows: seq<SubjectRow>): (days: seq<int>)
    ensures |days| == |rows| && forall i :: 0 <= i < |rows| ==> days[i] == rows[i].examDay
  {
    seq(|rows|, i requires 0 <= i < |rows| => rows[i].examDay)
  }

  /** The test dates of the matrix columns, each once, oldest first. */
  function ExamDays(rows: seq<SubjectRow>): (days: seq<int>)
    ensures StrictlyAscending(days)
    ensures forall i :: 0 <= i < |rows| ==> rows[i].examDay in days
    ensures forall d :: d in days ==> exists i :: 0 <= i < |rows| && rows[i].examDay == d
  {
    var ds := DaysOf(rows);
    var r := SortedSet(ds);
    assert forall d :: d in r ==> d in ds;
    assert forall i :: 0 <= i < |rows| ==> ds[i] in ds;
    r
  }

  /** An entry of `subject_info`: a subject and the SortOrder of its first row. */
  datatype SubjectInfo = SubjectInfo(name: string, sortOrder: int)

  function Names(infos: seq<SubjectInfo>): (names: seq<string>)
    ensures |names| == |infos| && forall i :: 0 <= i < |infos| ==> names[i] == infos[i].name
  {
    seq(|infos|, i requires 0 <= i < |infos| => infos[i].name)
  }

  /** The subjects in order of first appearance, each with its first SortOrder. */
  function FirstSubjects(rows: seq<SubjectRow>): seq<SubjectInfo>
  {
    if |rows| == 0 then []
    else
      var infos := FirstSubjects(rows[..|rows| - 1]);
      var s := rows[|rows| - 1];
      if s.subjectName in Names(infos) then infos else infos + [SubjectInfo(s.subjectName, s.sortOrder)]
  }

  lemma {:induction false} FirstSubjectsAreDistinct(rows: seq<SubjectRow>)
    ensures var names := Names(FirstSubjects(rows));
            && (forall i, j :: 0 <= i < j < |names| ==> names[i] != names[j])
            && (forall i :: 0 <= i < |rows| ==> rows[i].subjectName in names)
  {
    if |rows| > 0 {
      var init := rows[..|rows| - 1];
      FirstSubjectsAreDistinct(init);
      var infos := FirstSubjects(init);
      var s := rows[|rows| - 1];
      if s.subjectName !in Names(infos) {
        assert Names(infos + [SubjectInfo(s.subjectName, s.sortOrder)]) == Names(infos) + [s.subjectName];
      }
      forall i | 0 <= i < |rows|
        ensures rows[i].subjectName in Names(FirstSubjects(rows))
      {
        if i < |rows| - 1 {
          assert rows[i] == init[i];
          assert rows[i].subjectName in Names(infos);
          var k :| 0 <= k < |infos| && Names(infos)[k] == rows[i].subjectName;
          assert Names(FirstSubjects(rows))[k] == rows[i].subjectName;
        } else if s.subjectName in Names(infos) {
        } else {
          assert Names(FirstSubjects(rows))[|infos|] == s.subjectName;
        }
      }
    }
  }

  function NegSortOrder(s: SubjectInfo): int { -s.sortOrder }

  /** `sorted(subject_info, key=SortOrder)`: the stable ascending sort. */
  function SubjectOrder(rows: seq<SubjectRow>): (subjects: seq<SubjectInfo>)
    ensures multiset(subjects) == multiset(FirstSubjects(rows))
    ensures forall i, j :: 0 <= i < j < |subjects| ==> subjects[i].sortOrder <= subjects[j].sortOrder
  {
    var r := SortDescBy(FirstSubjects(rows), NegSortOrder);
    assert forall i, j :: 0 <= i < j < |r| ==> NegSortOrder(r[i]) >= NegSortOrder(r[j]);
    r
  }

  /** The `subject_info` loop. */
  method CollectSubjects(rows: seq<SubjectRow>) returns (infos: seq<SubjectInfo>)
    ensures infos == FirstSubjects(rows)
  {
    infos := [];
    var i := 0;
    while i < |rows|
      invariant 0 <= i <= |rows|
      invariant infos == FirstSubjects(rows[..i])
    {
      assert rows[..i + 1][..i] == rows[..i];
      if rows[i].subjectName !in Names(infos) {
        infos := infos + [SubjectInfo(rows[i].subjectName, rows[i].sortOrder)];
      }
      i := i + 1;
    }
    assert rows[..i] == rows;
  }

  predicate Matches(r: SubjectRow, day: int, subject: string)
  {
    r.examDay == day && r.subjectName == subject
  }

  /** The first row of that test and subject, or |rows|. */
  function FirstMatch(rows: seq<SubjectRow>, day: int, subject: string): (k: nat)
    ensures k <= |rows|
    ensures k < |rows| ==> Matches(rows[k], day, subject)
    ensures forall i :: 0 <= i < k ==> !Matches(rows[i], day, subject)
  {
    if |rows| == 0 then 0
    else if Matches(rows[0], day, subject) then 0
    else 1 + FirstMatch(rows[1..], day, subject)
  }

  /** A matrix cell: the first matching row's rank (999 when it is missing or 0), or 999 when the test was missed. */
  function CellRank(rows: seq<SubjectRow>, day: int, subject: string): int
  {
    var k := FirstMatch(rows, day, subject);
    if k < |rows| then RankOr999(rows[k].gradeRank) else 999
  }

  function RankRow(rows: seq<SubjectRow>, days: seq<int>, subject: string): (row: seq<int>)
    ensures |row| == |days|
    ensures forall j :: 0 <= j < |days| ==> row[j] == CellRank(rows, days[j], subject)
  {
    seq(|days|, j requires 0 <= j < |days| => CellRank(rows, days[j], subject))
  }

  /** The innermost loop: scan for the first matching row and stop there. */
  method FindRank(rows: seq<SubjectRow>, day: int, subject: string) returns (rank: int)
    ensures rank == CellRank(rows, day, subject)
  {
    var k := 0;
    while k < |rows|
      invariant 0 <= k <= |rows|
      invariant forall i :: 0 <= i < k ==> !Matches(rows[i], day, subject)
    {
      if rows[k].examDay == day && rows[k].subjectName == subject {
        return RankOr999(rows[k].gradeRank);
      }
      k := k + 1;
    }
    return 999;
  }

  /** The loop over the test dates for one subject. */
  method BuildRankRow(rows: seq<SubjectRow>, exams: seq<int>, subject: string) returns (line: seq<int>)
    ensures line == RankRow(rows, exams, subject)
  {
    line := [];
    var b := 0;
    while b < |exams|
      invariant 0 <= b <= |exams|
      invariant |line| == b
      invariant forall j :: 0 <= j < b ==> line[j] == CellRank(rows, exams[j], subject)
    {
      var rank := FindRank(rows, exams[b], subject);
      line := line + [rank];
      b := b + 1;
    }
  }

  /**
   * The matrix construction shared by the all-subjects chart and the
   * comprehensive view: one row per subject in SortOrder order, one column
   * per distinct test date, oldest first.
   */
  method BuildRankMatrix(rows: seq<SubjectRow>) returns (exams: seq<int>, subjects: seq<string>, matrix: map<string, seq<int>>)
    ensures exams == ExamDays(rows)
    ensures subjects == Names(SubjectOrder(rows))
    ensures forall s :: s in matrix <==> s in subjects
    ensures forall s :: s in matrix ==> matrix[s] == RankRow(rows, exams, s)
  {
    exams := ExamDays(rows);
    var infos := CollectSubjects(rows);
    subjects := Names(SortDescBy(infos, NegSortOrder));
    matrix := map[];
    var a := 0;
    while a < |subjects|
      invariant 0 <= a <= |subjects|
      invariant forall s :: s in matrix <==> s in subjects[..a]
      invariant forall s :: s in matrix ==> matrix[s] == RankRow(rows, exams, s)
    {
      var subject := subjects[a];
      var line := BuildRankRow(rows, exams, subject);
      matrix := matrix[subject := line];
      PrefixSnoc(subjects, a);
      a := a + 1;
    }
    assert subjects[..a] == subjects;
  }

  /** Every subject of the query gets a matrix row, and a cell is 999 exactly when it has no usable rank. */
  lemma RankMatrixCells(rows: seq<SubjectRow>, day: int, subject: string)
    ensures CellRank(rows, day, subject) != 999 ==>
              exists k :: 0 <= k < |rows| && Matches(rows[k], day, subject)
                          && rows[k].gradeRank == Some(CellRank(rows, day, subject))
    ensures (forall k :: 0 <= k < |rows| ==> !Matches(rows[k], day, subject)) ==> CellRank(rows, day, subject) == 999
    ensures subject in Names(SubjectOrder(rows)) <==> exists k :: 0 <= k < |rows| && rows[k].subjectName == subject
  {
    FirstSubjectsAreDistinct(rows);
    SubjectOrderNames(rows);
    FirstSubjectsCome(rows);
    CellRankFound(rows, day, subject);
  }

  /** Sorting by SortOrder keeps the set of subject names. */
  lemma SubjectOrderNames(rows: seq<SubjectRow>)
    ensures forall n :: n in Names(SubjectOrder(rows)) <==> n in Names(FirstSubjects(rows))
  {
    NamesOfPermutation(SubjectOrder(rows), FirstSubjects(rows));
    NamesOfPermutation(FirstSubjects(rows), SubjectOrder(rows));
  }

  lemma NamesOfPermutation(a: seq<SubjectInfo>, b: seq<SubjectInfo>)
    requires multiset(a) == multiset(b)
    ensures forall n :: n in Names(a) ==> n in Names(b)
  {
    forall n | n in Names(a)
      ensures n in Names(b)
    {
      var i :| 0 <= i < |a| && Names(a)[i] == n;
      assert a[i] in multiset(b);
      var j :| 0 <= j < |b| && b[j] == a[i];
      assert Names(b)[j] == n;
    }
  }

  /** A cell other than 999 holds the rank of a matching row; with no matching row the cell is 999. */
  lemma CellRankFound(rows: seq<SubjectRow>, day: int, subject: string)
    ensures CellRank(rows, day, subject) != 999 ==>
              exists k :: 0 <= k < |rows| && Matches(rows[k], day, subject)
                          && rows[k].gradeRank == Some(CellRank(rows, day, subject))
    ensures (forall k :: 0 <= k < |rows| ==> !Matches(rows[k], day, subject)) ==> CellRank(rows, day, subject) == 999
  {
    var k := FirstMatch(rows, day, subject);
    if k < |rows| && CellRank(rows, day, subject) != 999 {
      assert rows[k].gradeRank == Some(CellRank(rows, day, subject));
    }
  }

  lemma {:induction false} FirstSubjectsCome(rows: seq<SubjectRow>)
    ensures forall n :: n in Names(FirstSubjects(rows)) ==> exists k :: 0 <= k < |rows| && rows[k].subjectName == n
  {
    if |rows| > 0 {
      var init := rows[..|rows| - 1];
      FirstSubjectsCome(init);
      var infos := FirstSubjects(init);
      var s := rows[|rows| - 1];
      forall n | n in Names(FirstSubjects(rows))
        ensures exists k :: 0 <= k < |rows| && rows[k].subjectName == n
      {
        if n in Names(infos) {
          var k :| 0 <= k < |init| && init[k].subjectName == n;
          assert rows[k] == init[k];
        } else {
          assert Names(FirstSubjects(rows)) == Names(infos) + [s.subjectName];
          assert rows[|rows| - 1].subjectName == n;
        }
      }
    }
  }

  // ---------------------------------------------------------------------------
  // The total-rank change summary
  // ---------------------------------------------------------------------------

  /** `{e['ExamDate']: e['ExamName'] for e in all_scores}`: the last name seen for each date wins. */
  function ExamNames(rows: seq<SubjectRow>): (names: map<int, string>)
    ensures names.Keys == set i | 0 <= i < |rows| :: rows[i].examDay
    ensures forall i :: 0 <= i < |rows| && (forall j :: i < j < |rows| ==> rows[j].examDay != rows[i].examDay) ==>
              names[rows[i].examDay] == rows[i].examName
  {
    if |rows| == 0 then map[]
    else
      var init, last := rows[..|rows| - 1], rows[|rows| - 1];
      assert rows == init + [last];
      var earlier := ExamNames(init);
      ExamNamesStep(init, last, earlier);
      earlier[last.examDay := last.examName]
  }

  /** Adding one row to the map of the rows before it keeps ExamNames' keys and last-wins property. */
  lemma ExamNamesStep(init: seq<SubjectRow>, last: SubjectRow, earlier: map<int, string>)
    requires earlier.Keys == set i | 0 <= i < |init| :: init[i].examDay
    requires forall i :: 0 <= i < |init| && (forall j :: i < j < |init| ==> init[j].examDay != init[i].examDay) ==>
               earlier[init[i].examDay] == init[i].examName
    ensures var rows, names := init + [last], earlier[last.examDay := last.examName];
            && names.Keys == (set i | 0 <= i < |rows| :: rows[i].examDay)
            && forall i :: 0 <= i < |rows| && (forall j :: i < j < |rows| ==> rows[j].examDay != rows[i].examDay) ==>
                 names[rows[i].examDay] == rows[i].examName
  {
    var rows, names := init + [last], earlier[last.examDay := last.examName];
    forall d | d in names
      ensures exists i :: 0 <= i < |rows| && rows[i].examDay == d
    {
      if d != last.examDay {
        var i :| 0 <= i < |init| && init[i].examDay == d;
        assert rows[i] == init[i];
      } else {
        assert rows[|rows| - 1] == last;
      }
    }
    forall i | 0 <= i < |rows|
      ensures rows[i].examDay in names
    {
      if i < |init| {
        assert rows[i] == init[i];
      }
    }
    forall i | 0 <= i < |rows| && (forall j :: i < j < |rows| ==> rows[j].examDay != rows[i].examDay)
      ensures names[rows[i].examDay] == rows[i].examName
    {
      if i < |init| {
        assert rows[i] == init[i];
        assert rows[|rows| - 1] == last;
        forall j | i < j < |init|
          ensures init[j].examDay != init[i].examDay
        {
          assert rows[j] == init[j];
        }
      }
    }
  }

  /** A printed line: the change is None for 首次考试 (first test). */
  datatype ChangeLine = ChangeLine(examName: string, examDay: int, rank: int, change: Option<int>)

  datatype ChangeSummary = NoTotalRank | Lines(lines: seq<ChangeLine>)

  predicate AllMissing(ranks: seq<int>)
  {
    forall i :: 0 <= i < |ranks| ==> ranks[i] == 999
  }

  function ChangeLineAt(exams: seq<int>, names: map<int, string>, ranks: seq<int>, i: nat): ChangeLine
    requires i < |ranks| <= |exams|
  {
    var day := exams[i];
    var name := if day in names then names[day] else "-";
    if i == 0 || ranks[i - 1] == 999 then ChangeLine(name, day, ranks[i], None)
    else ChangeLine(name, day, ranks[i], Some(ranks[i - 1] - ranks[i]))
  }

  /** The lines of the non-999 entries, in order. */
  function ChangeLines(exams: seq<int>, names: map<int, string>, ranks: seq<int>): seq<ChangeLine>
    requires |ranks| <= |exams|
  {
    if |ranks| == 0 then []
    else
      var n := |ranks| - 1;
      ChangeLines(exams, names, ranks[..n]) + (if ranks[n] != 999 then [ChangeLineAt(exams, names, ranks, n)] else [])
  }

  /** print_rank_change_summary; the total-rank row has one entry per test column. */
  function RankChangeSummary(exams: seq<int>, names: map<int, string>, ranks: seq<int>): (out: ChangeSummary)
    requires |ranks| <= |exams|
    ensures out == NoTotalRank <==> |ranks| == 0 || AllMissing(ranks)
  {
    if |ranks| == 0 || AllMissing(ranks) then NoTotalRank else Lines(ChangeLines(exams, names, ranks))
  }

  lemma ChangeLineAtPrefix(exams: seq<int>, names: map<int, string>, ranks: seq<int>, n: nat, i: nat)
    requires i < n <= |ranks| <= |exams|
    ensures ChangeLineAt(exams, names, ranks[..n], i) == ChangeLineAt(exams, names, ranks, i)
  {
  }

  /** Every line is the line of a column with a rank. */
  lemma {:induction false} ChangeLinesComeFromRanks(exams: seq<int>, names: map<int, string>, ranks: seq<int>, l: ChangeLine)
    requires |ranks| <= |exams|
    requires l in ChangeLines(exams, names, ranks)
    ensures exists i :: 0 <= i < |ranks| && ranks[i] != 999 && l == ChangeLineAt(exams, names, ranks, i)
  {
    var n := |ranks| - 1;
    var prefix := ranks[..n];
    if l in ChangeLines(exams, names, prefix) {
      ChangeLinesComeFromRanks(exams, names, prefix, l);
      var i :| 0 <= i < |prefix| && prefix[i] != 999 && l == ChangeLineAt(exams, names, prefix, i);
      ChangeLineAtPrefix(exams, names, ranks, n, i);
      assert ranks[i] != 999 && l == ChangeLineAt(exams, names, ranks, i);
    } else {
      assert ranks[n] != 999 && l == ChangeLineAt(exams, names, ranks, n);
    }
  }

  /** Every column with a rank has its line. */
  lemma {:induction false} RanksHaveChangeLines(exams: seq<int>, names: map<int, string>, ranks: seq<int>, i: nat)
    requires i < |ranks| <= |exams| && ranks[i] != 999
    ensures ChangeLineAt(exams, names, ranks, i) in ChangeLines(exams, names, ranks)
  {
    var n := |ranks| - 1;
    var prefix := ranks[..n];
    if i < n {
      assert prefix[i] == ranks[i];
      RanksHaveChangeLines(exams, names, prefix, i);
      ChangeLineAtPrefix(exams, names, ranks, n, i);
    }
  }

  /** What a line says about its column. */
  lemma ChangeLineMeaning(exams: seq<int>, names: map<int, string>, ranks: seq<int>, i: nat)
    requires i < |ranks| <= |exams|
    ensures var l := ChangeLineAt(exams, names, ranks, i);
            && l.rank == ranks[i] && l.examDay == exams[i]
            && (l.change.None? <==> i == 0 || ranks[i - 1] == 999)
            && (l.change.Some? ==> l.change.value == ranks[i - 1] - ranks[i])
  {
  }
}
