// The web service's read side over the StudentScores view: one row per
// student with six subjects, turned into a DTO with a subject list and the
// mean of the scores that are present.

module ScoreService {
  import opened Common

  /** The score and the two ranks of one subject in a StudentScores row; each may be NULL. */
  datatype SubjectCols = SubjectCols(score: Option<real>, classRank: Option<int>, gradeRank: Option<int>)

  datatype StudentScore = StudentScore(id: int, studentName: string, className: string,
                                       chinese: SubjectCols, math: SubjectCols, english: SubjectCols,
                                       physics: SubjectCols, chemistry: SubjectCols, biology: SubjectCols)

  datatype SubjectScore = SubjectScore(subjectName: string, score: Option<real>, classRank: Option<int>, gradeRank: Option<int>)

  datatype StudentScoreDto = StudentScoreDto(studentName: string, className: string,
                                             subjects: seq<SubjectScore>, averageScore: real)

  const SubjectNames: seq<string> := ["语文", "数学", "英语", "物理", "化学", "生物"]

  /** The six subject columns of a row, in the DTO's order. */
  function Columns(row: StudentScore): (cs: seq<SubjectCols>)
    ensures |cs| == 6
  {
    [row.chinese, row.math, row.english, row.physics, row.chemistry, row.biology]
  }

  function Entry(name: string, c: SubjectCols): SubjectScore
  {
    SubjectScore(name, c.score, c.classRank, c.gradeRank)
  }

  /** The subject list of the DTO: the six subjects in order, each copied from its columns. */
  function SubjectList(row: StudentScore): (ss: seq<SubjectScore>)
    ensures |ss| == |SubjectNames| == 6
    ensures forall i :: 0 <= i < 6 ==>
              ss[i].subjectName == SubjectNames[i] && ss[i].score == Columns(row)[i].score
              && ss[i].classRank == Columns(row)[i].classRank && ss[i].gradeRank == Columns(row)[i].gradeRank
  {
    [Entry("语文", row.chinese), Entry("数学", row.math), Entry("英语", row.english),
     Entry("物理", row.physics), Entry("化学", row.chemistry), Entry("生物", row.biology)]
  }

  /** `Where(s => s.Score.HasValue).Select(s => s.Score.Value)`. */
  function PresentScores(ss: seq<SubjectScore>): (xs: seq<real>)
    ensures |xs| <= |ss|
    ensures forall x :: x in xs <==> exists i :: 0 <= i < |ss| && ss[i].score == Some(x)
  {
    if |ss| == 0 then []
    else
      var init := PresentScores(ss[..|ss| - 1]);
      var last := ss[|ss| - 1];
      assert forall i :: 0 <= i < |ss| - 1 ==> ss[..|ss| - 1][i] == ss[i];
      init + (if last.score.Some? then [last.score.value] else [])
  }

  /** `scores.Any() ? scores.Average() : 0`. */
  function AverageOrZero(xs: seq<real>): real
  {
    if |xs| == 0 then 0.0 else Sum(xs) / (|xs| as real)
  }

  /** `DefaultIfEmpty(0).Average()`: the mean of the scores, or of the single value 0. */
  function AverageDefaultIfEmpty(xs: seq<real>): real
  {
    var ys := if |xs| == 0 then [0.0] else xs;
    Sum(ys) / (|ys| as real)
  }

  /** The two averaging rules of the service give the same value. */
  lemma AveragesAgree(xs: seq<real>)
    ensures AverageDefaultIfEmpty(xs) == AverageOrZero(xs)
  {
    if |xs| == 0 {
      assert Sum([0.0]) == Sum([]) + 0.0;
    }
  }

  /** The mean of present scores lies within any bounds of the scores. */
  lemma AverageWithin(xs: seq<real>, lo: real, hi: real)
    requires |xs| > 0
    requires forall i :: 0 <= i < |xs| ==> lo <= xs[i] <= hi
    ensures lo <= AverageOrZero(xs) <= hi
  {
    SumBounds(xs, lo, hi);
    var n := |xs| as real;
    assert n * lo <= Sum(xs) <= n * hi;
    DivideBounds(Sum(xs), n, lo, hi);
  }

  lemma DivideBounds(s: real, n: real, lo: real, hi: real)
    requires n > 0.0 && n * lo <= s <= n * hi
    ensures lo <= s / n <= hi
  {
    assert s / n * n == s;
  }

  function ToDto(row: StudentScore): (dto: StudentScoreDto)
    ensures dto.studentName == row.studentName && dto.className == row.className
    ensures dto.subjects == SubjectList(row)
    ensures dto.averageScore == AverageOrZero(PresentScores(SubjectList(row)))
  {
    var subjects := SubjectList(row);
    StudentScoreDto(row.studentName, row.className, subjects, AverageOrZero(PresentScores(subjects)))
  }

  /**
   * The DTO's average is 0 when no subject has a score, and otherwise lies
   * within any bounds of the scores that are present.
   */
  lemma DtoAverage(row: StudentScore, lo: real, hi: real)
    requires forall i :: 0 <= i < 6 && Columns(row)[i].score.Some? ==> lo <= Columns(row)[i].score.value <= hi
    ensures PresentScores(SubjectList(row)) == [] ==> ToDto(row).averageScore == 0.0
    ensures PresentScores(SubjectList(row)) != [] ==> lo <= ToDto(row).averageScore <= hi
  {
    var xs := PresentScores(SubjectList(row));
    if xs != [] {
      forall k | 0 <= k < |xs|
        ensures lo <= xs[k] <= hi
      {
        assert xs[k] in xs;
      }
      AverageWithin(xs, lo, hi);
    }
  }

  /** `QueryFirstOrDefault ... WHERE StudentName = @StudentName`: the first row with the name. */
  function FirstNamed(rows: seq<StudentScore>, name: string): (r: Option<StudentScore>)
    ensures r.None? <==> forall i :: 0 <= i < |rows| ==> rows[i].studentName != name
    ensures r.Some? ==> exists i :: 0 <= i < |rows| && rows[i] == r.value && rows[i].studentName == name
                          && forall j :: 0 <= j < i ==> rows[j].studentName != name
  {
    if |rows| == 0 then None
    else if rows[0].studentName == name then Some(rows[0])
    else
      var r := FirstNamed(rows[1..], name);
      assert forall i :: 1 <= i < |rows| ==> rows[1..][i - 1] == rows[i];
      r
  }

  /** GetStudentScoreAsync: null when no row has the name, otherwise the first such row as a DTO. */
  function GetStudentScore(rows: seq<StudentScore>, name: string): (r: Option<StudentScoreDto>)
    ensures r.None? <==> forall i :: 0 <= i < |rows| ==> rows[i].studentName != name
    ensures r.Some? ==> exists i :: 0 <= i < |rows| && rows[i].studentName == name && r.value == ToDto(rows[i])
  {
    match FirstNamed(rows, name)
    case None => None
    case Some(row) => Some(ToDto(row))
  }

  function InClass(className: string): StudentScore -> bool
  {
    (row: StudentScore) => row.className == className
  }

  // ---------------------------------------------------------------------------
  // ORDER BY StudentName
  // ---------------------------------------------------------------------------

  /**
   * SQLite's default BINARY collation on names: byte order of the UTF-8
   * text, which is the order of the code points, compared lexicographically
   * with a prefix first.
   */
  predicate NameLe(a: string, b: string)
    decreases |a|
  {
    |a| == 0 || (|b| > 0 && (a[0] < b[0] || (a[0] == b[0] && NameLe(a[1..], b[1..]))))
  }

  /** Any two names are ordered one way or the other. */
  lemma {:induction false} NameLeTotal(a: string, b: string)
    ensures NameLe(a, b) || NameLe(b, a)
    decreases |a|
  {
    if |a| > 0 && |b| > 0 && a[0] == b[0] {
      NameLeTotal(a[1..], b[1..]);
    }
  }

  predicate NamesAscending(rows: seq<StudentScore>)
  {
    forall i :: 0 < i < |rows| ==> NameLe(rows[i - 1].studentName, rows[i].studentName)
  }

  /** One row put in its place among rows already ordered by name. */
  function InsertByName(row: StudentScore, sorted: seq<StudentScore>): (r: seq<StudentScore>)
    requires NamesAscending(sorted)
    ensures NamesAscending(r) && multiset(r) == multiset(sorted) + multiset{row}
    ensures |r| > 0 && (r[0] == row || (|sorted| > 0 && r[0] == sorted[0]))
  {
    if |sorted| == 0 || NameLe(row.studentName, sorted[0].studentName) then [row] + sorted
    else
      NameLeTotal(row.studentName, sorted[0].studentName);
      var rest := InsertByName(row, sorted[1..]);
      assert sorted == [sorted[0]] + sorted[1..];
      [sorted[0]] + rest
  }

  /** The rows ordered by name: ascending, and exactly the same rows. */
  function ByName(rows: seq<StudentScore>): (r: seq<StudentScore>)
    ensures NamesAscending(r) && multiset(r) == multiset(rows) && |r| == |rows|
  {
    if |rows| == 0 then []
    else
      assert rows == [rows[0]] + rows[1..];
      InsertByName(rows[0], ByName(rows[1..]))
  }

  /**
   * GetClassScoresAsync: the class's rows ordered by name (rows with the same
   * name in an order the database chooses), one DTO per row.
   */
  function GetClassScores(rows: seq<StudentScore>, className: string): (dtos: seq<StudentScoreDto>)
    ensures |dtos| == |Filter(rows, InClass(className))|
    ensures DtosByName(dtos)
    ensures forall i :: 0 <= i < |dtos| ==>
              dtos[i].studentName == ByName(Filter(rows, InClass(className)))[i].studentName
              && dtos[i].className == className
              && dtos[i].subjects == SubjectList(ByName(Filter(rows, InClass(className)))[i])
              && dtos[i].averageScore == AverageDefaultIfEmpty(PresentScores(dtos[i].subjects))
  {
    var matching := ByName(Filter(rows, InClass(className)));
    ByNameOfClass(rows, className);
    var dtos := seq(|matching|, i requires 0 <= i < |matching| => ClassDto(matching[i]));
    SameNamesAscending(matching, dtos);
    dtos
  }

  /** Each DTO's name is at or after the name of the one before it. */
  predicate DtosByName(dtos: seq<StudentScoreDto>)
  {
    forall i :: 0 < i < |dtos| ==> NameLe(dtos[i - 1].studentName, dtos[i].studentName)
  }

  /** DTOs carrying the names of rows ordered by name are ordered by name too. */
  lemma SameNamesAscending(rows: seq<StudentScore>, dtos: seq<StudentScoreDto>)
    requires NamesAscending(rows) && |dtos| == |rows|
    requires forall i :: 0 <= i < |rows| ==> dtos[i].studentName == rows[i].studentName
    ensures DtosByName(dtos)
  {
    forall i | 0 < i < |dtos|
      ensures NameLe(dtos[i - 1].studentName, dtos[i].studentName)
    {
      assert NameLe(rows[i - 1].studentName, rows[i].studentName);
    }
  }

  /** The DTO the class query builds for one row: average over the present scores, 0 when there are none. */
  function ClassDto(row: StudentScore): (dto: StudentScoreDto)
  {
    var subjects := SubjectList(row);
    StudentScoreDto(row.studentName, row.className, subjects, AverageDefaultIfEmpty(PresentScores(subjects)))
  }

  /** Ordering the class's rows keeps their number, and every one of them is in the class. */
  lemma ByNameOfClass(rows: seq<StudentScore>, className: string)
    ensures |ByName(Filter(rows, InClass(className)))| == |Filter(rows, InClass(className))|
    ensures forall j :: 0 <= j < |ByName(Filter(rows, InClass(className)))| ==>
              ByName(Filter(rows, InClass(className)))[j].className == className
  {
    var matching := Filter(rows, InClass(className));
    var sorted := ByName(matching);
    assert |multiset(sorted)| == |multiset(matching)|;
    forall j | 0 <= j < |sorted|
      ensures sorted[j].className == className
    {
      assert sorted[j] in multiset(matching);
      assert sorted[j] in matching;
    }
  }

  /** Both service methods build the same DTO for a row. */
  lemma ClassDtosMatchStudentDto(rows: seq<StudentScore>, className: string, i: nat)
    requires i < |Filter(rows, InClass(className))|
    ensures GetClassScores(rows, className)[i] == ToDto(ByName(Filter(rows, InClass(className)))[i])
  {
    var sorted := ByName(Filter(rows, InClass(className)));
    assert |multiset(sorted)| == |multiset(Filter(rows, InClass(className)))|;
    var row := sorted[i];
    assert row in multiset(Filter(rows, InClass(className)));
    AveragesAgree(PresentScores(SubjectList(row)));
  }
}
