// The time-limit test importer: reading the test out of the workbook's file
// name, cleaning student names, deriving term and academic year, and the
// per-row rules that fill the TimeLimitScores table.

module TimeLimitImporter {
  import opened Common
  import opened Sheet

  // ---------------------------------------------------------------------------
  // The file-name pattern `高一.+?部(.+?)限时练([\d.]+)`
  // ---------------------------------------------------------------------------

  predicate DigitOrDot(c: char)
  {
    IsAsciiDigit(c) || c == '.'
  }

  predicate NoNewline(s: string, lo: int, hi: int)
    requires 0 <= lo <= hi <= |s|
  {
    forall i :: lo <= i < hi ==> s[i] != '\n'
  }

  /** `高一.+?部` starting at `p`, with the 部 at `j`. */
  predicate HeadAt(s: string, p: int, j: int)
  {
    0 <= p && p + 3 <= j < |s| && s[p..p + 2] == "高一" && s[j] == '部' && NoNewline(s, p + 2, j)
  }

  /** `(.+?)限时练[\d.]` after the 部 at `j`, with the group ending at `k`. */
  predicate TailAt(s: string, j: int, k: int)
  {
    0 <= j && j + 2 <= k && k + 4 <= |s| && s[k..k + 3] == "限时练" && DigitOrDot(s[k + 3])
    && NoNewline(s, j + 1, k)
  }

  /** The pattern occurs somewhere in `s`. */
  ghost predicate Matches(s: string)
  {
    exists p, j, k :: 0 <= p < |s| && 0 <= j < |s| && 0 <= k < |s| && HeadAt(s, p, j) && TailAt(s, j, k)
  }

  function TailTest(s: string, j: int): int -> bool
  {
    k => TailAt(s, j, k)
  }

  /** The lazy subject group: the shortest one that lets the rest match. */
  function GroupEnd(s: string, j: int): Option<int>
  {
    FirstWhere(j + 2, |s|, TailTest(s, j))
  }

  function HeadTest(s: string, p: int): int -> bool
  {
    j => HeadAt(s, p, j) && GroupEnd(s, j).Some?
  }

  /** The lazy `.+?部`: the first 部 after which the rest matches. */
  function BuEnd(s: string, p: int): Option<int>
  {
    FirstWhere(p + 3, |s|, HeadTest(s, p))
  }

  function StartTest(s: string): int -> bool
  {
    p => BuEnd(s, p).Some?
  }

  /** `re.search`: the leftmost start at which the pattern matches. */
  function MatchStart(s: string): Option<int>
  {
    FirstWhere(0, |s|, StartTest(s))
  }

  lemma FirstWhereFinds(lo: int, hi: int, p: int -> bool, i: int)
    requires lo <= i < hi && p(i)
    ensures FirstWhere(lo, hi, p).Some?
  {
  }

  lemma MatchStartFindsMatch(s: string)
    ensures MatchStart(s).Some? <==> Matches(s)
  {
    if Matches(s) {
      var p, j, k :| 0 <= p < |s| && 0 <= j < |s| && 0 <= k < |s| && HeadAt(s, p, j) && TailAt(s, j, k);
      assert TailTest(s, j)(k);
      FirstWhereFinds(j + 2, |s|, TailTest(s, j), k);
      assert HeadTest(s, p)(j);
      FirstWhereFinds(p + 3, |s|, HeadTest(s, p), j);
      assert StartTest(s)(p);
      FirstWhereFinds(0, |s|, StartTest(s), p);
    }
    if MatchStart(s).Some? {
      var p := MatchStart(s).value;
      assert StartTest(s)(p);
      var j := BuEnd(s, p).value;
      assert HeadTest(s, p)(j);
      var k := GroupEnd(s, j).value;
      assert TailTest(s, j)(k);
      assert HeadAt(s, p, j) && TailAt(s, j, k);
    }
  }

  /** The greedy `[\d.]+`: the longest run of digits and dots at the front. */
  function DigitRun(s: string): (r: string)
    ensures |r| <= |s| && r == s[..|r|]
    ensures forall i :: 0 <= i < |r| ==> DigitOrDot(r[i])
    ensures |r| < |s| ==> !DigitOrDot(s[|r|])
  {
    if |s| > 0 && DigitOrDot(s[0]) then [s[0]] + DigitRun(s[1..]) else []
  }

  /** `f"{n:02d}"`. */
  function Pad2(n: int): string
  {
    if 0 <= n < 10 then "0" + NatToString(n) else IntToString(n)
  }

  /**
   * The exam date for a date text: "M.D" becomes "2024-MM-DD"; a text
   * without '.' is used as it is; when either part is not a number the
   * current date `today` is used.
   */
  function ExamDateOf(dateStr: string, today: string): string
  {
    if '.' in dateStr then
      var parts := Split(dateStr, '.');
      match (PyInt(parts[0]), PyInt(parts[1]))
      case (Some(month), Some(day)) => "2024-" + Pad2(month) + "-" + Pad2(day)
      case _ => today
    else dateStr
  }

  datatype ExamInfo = ExamInfo(examName: string, subject: string, examDate: string)

  predicate IsDateText(d: string)
  {
    |d| > 0 && forall i :: 0 <= i < |d| ==> DigitOrDot(d[i])
  }

  /** The positions `re.search` settles on: the start, the 部 and the end of the subject group. */
  function MatchSpans(s: string): (r: Option<(int, int, int)>)
    ensures r.None? <==> !Matches(s)
    ensures r.Some? ==> HeadAt(s, r.value.0, r.value.1) && TailAt(s, r.value.1, r.value.2)
  {
    MatchStartFindsMatch(s);
    match MatchStart(s)
    case None => None
    case Some(p) =>
      assert StartTest(s)(p);
      var j := BuEnd(s, p).value;
      assert HeadTest(s, p)(j);
      var k := GroupEnd(s, j).value;
      assert TailTest(s, j)(k);
      Some((p, j, k))
  }

  /**
   * parse_exam_name. `today` stands for the clock read when the date text
   * does not parse.
   */
  function ParseExamName(filename: string, today: string): (r: Option<ExamInfo>)
    ensures r.None? <==> !Matches(filename)
    ensures r.Some? ==> exists d :: IsDateText(d) && r.value.examName == r.value.subject + "限时练" + d
                                    && r.value.examDate == ExamDateOf(d, today)
  {
    match MatchSpans(filename)
    case None => None
    case Some((_, j, k)) =>
      var subject := StripPy(filename[j + 1..k]);
      var run := DigitRun(filename[k + 3..]);
      var dateStr := StripPy(run);
      assert run[0] == filename[k + 3];
      StripDateText(run);
      Some(ExamInfo(subject + "限时练" + dateStr, subject, ExamDateOf(dateStr, today)))
  }

  lemma StripDateText(d: string)
    requires IsDateText(d)
    ensures StripPy(d) == d
  {
    assert !IsPyWhiteSpace(d[0]) && !IsPyWhiteSpace(d[|d| - 1]);
  }

  /** A digit string holds no separator. */
  lemma DigitsHoldNo(s: string, c: char)
    requires IsDigitString(s) && !IsAsciiDigit(c)
    ensures c !in s
  {
    forall i | 0 <= i < |s| ensures s[i] != c {
      assert IsAsciiDigit(s[i]);
    }
  }

  /** A month and a day written "M.D" become "2024-MM-DD". */
  lemma ExamDateOfMonthDay(month: nat, day: nat, today: string)
    ensures ExamDateOf(NatToString(month) + "." + NatToString(day), today) == "2024-" + Pad2(month) + "-" + Pad2(day)
  {
    var m := NatToString(month);
    var d := NatToString(day);
    var s := m + "." + d;
    DigitsHoldNo(m, '.');
    DigitsHoldNo(d, '.');
    assert s == m + ['.'] + d;
    SplitCons(m, '.', d);
    SplitWithout(d, '.');
    assert Split(s, '.') == [m, d];
    assert '.' in s by { assert s[|m|] == '.'; }
    PyIntOfDigits(m);
    PyIntOfDigits(d);
    NatToStringValue(month);
    NatToStringValue(day);
  }

  /** A date text without '.' is the date itself. */
  lemma ExamDateVerbatim(dateStr: string, today: string)
    requires '.' !in dateStr
    ensures ExamDateOf(dateStr, today) == dateStr
  {
  }

  // ---------------------------------------------------------------------------
  // Student names
  // ---------------------------------------------------------------------------

  /** `re.sub(r'\d+$', '', s)` on text without a trailing newline. */
  function StripTrailingDigits(s: string): (r: string)
    ensures |r| <= |s| && r == s[..|r|]
    ensures |r| > 0 ==> !IsAsciiDigit(r[|r| - 1])
    ensures forall i :: |r| <= i < |s| ==> IsAsciiDigit(s[i])
  {
    if |s| > 0 && IsAsciiDigit(s[|s| - 1]) then StripTrailingDigits(s[..|s| - 1]) else s
  }

  /** The text of a name with the surrounding whitespace and then the trailing digits removed. */
  function CleanedText(s: string): (n: string)
    ensures |n| > 0 ==> !IsAsciiDigit(n[|n| - 1])
  {
    StripTrailingDigits(StripPy(s))
  }

  /** clean_student_name: strip, drop the trailing digits, None when nothing is left. */
  function CleanStudentName(c: Cell): (r: Option<string>)
    ensures !Truthy(c) ==> r.None?
    ensures r.Some? ==> |r.value| > 0 && !IsAsciiDigit(r.value[|r.value| - 1])
  {
    if !Truthy(c) then None
    else
      var n := CleanedText(Str(c));
      if n == "" then None else Some(n)
  }

  /**
   * Cleaning a cleaned name again changes nothing as long as the name does
   * not end in whitespace.
   */
  lemma CleanStudentNameIdempotent(c: Cell)
    requires CleanStudentName(c).Some?
    requires var n := CleanStudentName(c).value; !IsPyWhiteSpace(n[|n| - 1])
    ensures CleanStudentName(Text(CleanStudentName(c).value)) == CleanStudentName(c)
  {
    CleanedStartsStripped(Str(c));
    CleanNameKept(CleanStudentName(c).value);
  }

  /** Dropping trailing digits from stripped text leaves it starting as stripped text does. */
  lemma CleanedStartsStripped(s: string)
    ensures var n := StripTrailingDigits(StripPy(s));
            |n| > 0 ==> !IsPyWhiteSpace(n[0])
  {
    var t := StripPy(s);
    var n := StripTrailingDigits(t);
    if |n| > 0 {
      assert n[0] == t[0];
    }
  }

  /** A name with no whitespace at either end and no digit at the end is cleaned to itself. */
  lemma CleanNameKept(n: string)
    requires |n| > 0 && !IsPyWhiteSpace(n[0]) && !IsPyWhiteSpace(n[|n| - 1]) && !IsAsciiDigit(n[|n| - 1])
    ensures CleanStudentName(Text(n)) == Some(n)
  {
    StripUnchanged(n);
    NoTrailingDigits(n);
    assert Truthy(Text(n)) && Str(Text(n)) == n;
  }

  lemma NoTrailingDigits(s: string)
    requires |s| > 0 && !IsAsciiDigit(s[|s| - 1])
    ensures StripTrailingDigits(s) == s
  {
  }

  /** Whitespace before the digits survives one cleaning but not a second. */
  lemma CleanStudentNameKeepsInnerSpace()
    ensures CleanStudentName(Text("Li 1")) == Some("Li ")
    ensures CleanStudentName(Text("Li ")) == Some("Li")
  {
    CleanOnce();
    CleanTwice();
  }

  lemma CleanOnce()
    ensures CleanStudentName(Text("Li 1")) == Some("Li ")
  {
    assert "Li 1" == "Li " + ['1'];
    CleanDropsDigit("Li ", '1');
  }

  /** A name ending in a non-digit followed by one digit loses the digit, whatever precedes it. */
  lemma CleanDropsDigit(n: string, d: char)
    requires |n| > 0 && !IsPyWhiteSpace(n[0]) && !IsAsciiDigit(n[|n| - 1]) && IsAsciiDigit(d)
    ensures CleanStudentName(Text(n + [d])) == Some(n)
  {
    var s := n + [d];
    assert !IsPyWhiteSpace(s[|s| - 1]);
    StripUnchanged(s);
    assert s[..|s| - 1] == n;
    NoTrailingDigits(n);
    assert StripTrailingDigits(s) == n;
    assert Truthy(Text(s)) && Str(Text(s)) == s;
  }

  lemma CleanTwice()
    ensures CleanStudentName(Text("Li ")) == Some("Li")
  {
    StripTrailingSpace();
    assert StripTrailingDigits("Li") == "Li";
  }

  lemma StripTrailingSpace()
    ensures StripPy("Li ") == "Li"
  {
    assert StripStartPy("Li ") == "Li " by {
      assert !IsPyWhiteSpace('L');
    }
    assert StripEndPy("Li ") == "Li" by {
      assert IsPyWhiteSpace(' ');
      assert "Li "[..2] == "Li";
      assert !IsPyWhiteSpace('i');
    }
  }

  // ---------------------------------------------------------------------------
  // The TimeLimitExams table
  // ---------------------------------------------------------------------------

  /** The month field of "Y-M-D", 1 when it is missing or not a number. */
  function MonthOf(examDate: string): int
  {
    var parts := Split(examDate, '-');
    if |parts| >= 2 && PyInt(parts[1]).Some? then PyInt(parts[1]).value else 1
  }

  /** The year field of "Y-M-D", 2024 when it is not a number. */
  function YearOf(examDate: string): int
  {
    var parts := Split(examDate, '-');
    if PyInt(parts[0]).Some? then PyInt(parts[0]).value else 2024
  }

  function TermOf(examDate: string): string
  {
    if MonthOf(examDate) <= 7 then "上学期" else "下学期"
  }

  function AcademicYearOf(examDate: string): string
  {
    IntToString(YearOf(examDate)) + "-" + IntToString(YearOf(examDate) + 1)
  }

  /** A date the file-name rule built reads back as its month and as the 2024-2025 year. */
  lemma TermOfBuiltDate(month: nat, day: nat)
    ensures TermOf("2024-" + Pad2(month) + "-" + Pad2(day)) == (if month <= 7 then "上学期" else "下学期")
    ensures AcademicYearOf("2024-" + Pad2(month) + "-" + Pad2(day)) == "2024-2025"
  {
    var m := Pad2(month);
    var d := Pad2(day);
    PadDigits(month);
    PadDigits(day);
    SplitBuiltDate(m, d);
    var s := "2024-" + m + "-" + d;
    PyIntOfDigits(m);
    Year2024();
    assert YearOf(s) == 2024;
    assert MonthOf(s) == month;
  }

  lemma Year2024()
    ensures PyInt("2024") == Some(2024)
    ensures IntToString(2024) + "-" + IntToString(2025) == "2024-2025"
  {
    assert NatToString(2024) == "2024";
    NatToStringValue(2024);
    PyIntOfDigits("2024");
    YearText();
  }

  lemma YearText()
    ensures IntToString(2024) + "-" + IntToString(2025) == "2024-2025"
  {
    assert NatToString(2024) == "2024";
    assert NatToString(2025) == "2025";
  }

  lemma SplitBuiltDate(m: string, d: string)
    requires IsDigitString(m) && IsDigitString(d)
    ensures Split("2024-" + m + "-" + d, '-') == ["2024", m, d]
  {
    DigitsHoldNo(m, '-');
    DigitsHoldNo(d, '-');
    assert IsDigitString("2024");
    DigitsHoldNo("2024", '-');
    assert "2024-" + m + "-" + d == "2024" + ['-'] + (m + ['-'] + d);
    SplitCons("2024", '-', m + ['-'] + d);
    SplitCons(m, '-', d);
    SplitWithout(d, '-');
  }

  lemma PadDigits(n: nat)
    ensures IsDigitString(Pad2(n)) && DigitsValue(Pad2(n)) == n
  {
    NatToStringValue(n);
    if n < 10 {
      var s := Pad2(n);
      assert s[..|s| - 1] == "0";
      assert DigitsValue("0") == 0;
    }
  }

  lemma NoDash(s: string)
    requires IsDigitString(s)
    ensures '-' !in s
  {
    forall i | 0 <= i < |s| ensures s[i] != '-' {
      assert IsAsciiDigit(s[i]);
    }
  }

  datatype TimeLimitExam = TimeLimitExam(id: int, name: string, date: string, subjectName: string, subjectId: int,
                                         gradeName: string, term: string, academicYear: string, description: string)

  /** `SELECT ExamId FROM TimeLimitExams WHERE ExamName = ?`, first row in table order. */
  function FindExam(exams: seq<TimeLimitExam>, name: string): (r: Option<int>)
    ensures r.Some? <==> exists i :: 0 <= i < |exams| && exams[i].name == name
    ensures r.Some? ==> exists i :: 0 <= i < |exams| && exams[i].name == name && exams[i].id == r.value
  {
    if |exams| == 0 then None
    else if exams[0].name == name then Some(exams[0].id)
    else
      var r := FindExam(exams[1..], name);
      assert forall i :: 1 <= i < |exams| ==> exams[i] == exams[1..][i - 1];
      r
  }

  /**
   * create_time_limit_exam_if_not_exists. `newId` stands for the row id the
   * database assigns to an inserted row.
   */
  function CreateExamIfNotExists(exams: seq<TimeLimitExam>, name: string, subjectName: string, subjectId: int,
                                 examDate: string, gradeName: string, newId: int): (r: (int, seq<TimeLimitExam>))
    ensures FindExam(exams, name).Some? ==> r == (FindExam(exams, name).value, exams)
    ensures FindExam(exams, name).None? ==>
              && r.0 == newId && |r.1| == |exams| + 1 && r.1[..|exams|] == exams
              && r.1[|exams|].term == TermOf(examDate) && r.1[|exams|].academicYear == AcademicYearOf(examDate)
  {
    match FindExam(exams, name)
    case Some(id) => (id, exams)
    case None =>
      (newId, exams + [TimeLimitExam(newId, name, examDate, subjectName, subjectId, gradeName,
                                     TermOf(examDate), AcademicYearOf(examDate), "限时练考试")])
  }

  /** After the call the name is found with the returned id, and a second call changes nothing. */
  lemma CreateExamThenFind(exams: seq<TimeLimitExam>, name: string, subjectName: string, subjectId: int,
                           examDate: string, gradeName: string, newId: int, otherId: int)
    ensures var (id, after) := CreateExamIfNotExists(exams, name, subjectName, subjectId, examDate, gradeName, newId);
            && FindExam(after, name) == Some(id)
            && CreateExamIfNotExists(after, name, subjectName, subjectId, examDate, gradeName, otherId) == (id, after)
  {
    var (id, after) := CreateExamIfNotExists(exams, name, subjectName, subjectId, examDate, gradeName, newId);
    if FindExam(exams, name).None? {
      FindExamAppended(exams, after[|exams|]);
      assert after == exams + [after[|exams|]];
    }
  }

  // ---------------------------------------------------------------------------
  // Rows of a sheet
  // ---------------------------------------------------------------------------

  lemma {:induction false} FindExamAppended(exams: seq<TimeLimitExam>, e: TimeLimitExam)
    requires FindExam(exams, e.name).None?
    ensures FindExam(exams + [e], e.name) == Some(e.id)
  {
    if |exams| > 0 {
      assert (exams + [e])[1..] == exams[1..] + [e];
      assert exams[0].name != e.name;
      FindExamAppended(exams[1..], e);
    }
  }

  /** The score cell: None means absent ('--', '-', empty, 0 or not a number). */
  function ScoreOf(c: Cell): (r: Option<real>)
    ensures StrippedOrEmpty(c) == "--" || StrippedOrEmpty(c) == "-" || StrippedOrEmpty(c) == "" ==> r.None?
    ensures r.Some? ==> r == FloatOf(c, StrippedOrEmpty(c))
  {
    var v := StrippedOrEmpty(c);
    if v == "--" || v == "-" || v == "" then None else FloatOf(c, v)
  }

  /** A numeric zero is falsy, so a score cell holding 0 is taken as absent. */
  lemma ZeroScoreIsAbsent()
    ensures ScoreOf(Int(0)) == None
    ensures ScoreOf(Text("0")) == Some(0.0)
  {
    ZeroTextIsScore();
  }

  lemma ZeroTextIsScore()
    ensures ScoreOf(Text("0")) == Some(0.0)
  {
    var v := "0";
    assert IsAsciiDigit(v[0]);
    StripDigits(v);
    assert StrippedOrEmpty(Text(v)) == v;
    assert IndexOf(v, '.') == 1;
    assert ParseUnsignedDecimal(v) == Some(0.0);
  }

  /**
   * A rank cell: None when empty or '--', '-', '' or 'None'; otherwise
   * `int(float(text))`, falling back to `int(text)`.
   */
  predicate NoRankText(v: string)
  {
    v == "" || v == "--" || v == "-" || v == "None"
  }

  function RankOf(c: Cell): (r: Option<int>)
    ensures c.Blank? || NoRankText(StripPy(Str(c))) ==> r.None?
  {
    if c.Blank? then None
    else
      var v := StripPy(Str(c));
      if NoRankText(v) then None
      else match FloatOf(c, v)
        case Some(x) => Some(TruncToInt(x))
        case None => PyInt(v)
  }

  /** A rank written as a number, in a text cell or a numeric cell, reads back as itself. */
  lemma RankReadsBack(n: nat)
    ensures RankOf(Text(NatToString(n))) == Some(n)
    ensures RankOf(Int(n)) == Some(n)
  {
    TextRankOf(n);
    IntRankOf(n);
  }

  lemma TextRankOf(n: nat)
    ensures RankOf(Text(NatToString(n))) == Some(n)
  {
    var v := NatToString(n);
    StripDigits(v);
    NumberIsRankText(v);
    DecimalOfNat(n);
    TruncOfNat(n);
    TextRank(v, n as real);
  }

  lemma IntRankOf(n: nat)
    ensures RankOf(Int(n)) == Some(n)
  {
    TruncOfNat(n);
    var v := NatToString(n);
    assert Str(Int(n)) == v;
    StripDigits(v);
    NumberIsRankText(v);
  }

  lemma TextRank(v: string, x: real)
    requires StripPy(v) == v && !NoRankText(v) && ParseSignedDecimal(v) == Some(x)
    ensures RankOf(Text(v)) == Some(TruncToInt(x))
  {
    assert PyFloat(v) == Some(x);
    assert FloatOf(Text(v), v) == Some(x);
  }

  lemma TruncOfNat(n: nat)
    ensures TruncToInt(n as real) == n
  {
  }

  lemma NumberIsRankText(v: string)
    requires IsDigitString(v)
    ensures !NoRankText(v)
  {
    assert IsAsciiDigit(v[0]);
  }

  datatype StudentRec = StudentRec(id: int, number: string, name: string, className: string)

  /** `SELECT StudentId FROM Students WHERE StudentNumber = ?`. */
  function FindByNumber(students: seq<StudentRec>, number: string): (r: Option<int>)
    ensures r.None? <==> forall i :: 0 <= i < |students| ==> students[i].number != number
    ensures r.Some? ==> exists i :: 0 <= i < |students| && students[i].id == r.value && students[i].number == number
  {
    if |students| == 0 then None
    else if students[0].number == number then Some(students[0].id)
    else
      var r := FindByNumber(students[1..], number);
      assert forall i :: 1 <= i < |students| ==> students[i] == students[1..][i - 1];
      r
  }

  /** `SELECT StudentId FROM Students WHERE StudentName = ? AND ClassName = ?`. */
  function FindByNameInClass(students: seq<StudentRec>, name: string, className: string): (r: Option<int>)
    ensures r.None? <==> forall i :: 0 <= i < |students| ==> !(students[i].name == name && students[i].className == className)
    ensures r.Some? ==> exists i :: 0 <= i < |students| && students[i].id == r.value
                          && students[i].name == name && students[i].className == className
  {
    if |students| == 0 then None
    else if students[0].name == name && students[0].className == className then Some(students[0].id)
    else
      var r := FindByNameInClass(students[1..], name, className);
      assert forall i :: 1 <= i < |students| ==> students[i] == students[1..][i - 1];
      r
  }

  /** Look the student up by number, then by name within the sheet's class. */
  function FindStudent(students: seq<StudentRec>, name: string, number: string, className: string): Option<int>
  {
    match FindByNumber(students, number)
    case Some(id) => Some(id)
    case None => FindByNameInClass(students, name, className)
  }

  /** What happened to one data row; every kind but Saved counts as a failure. */
  datatype RowOutcome =
    | Saved(studentId: int, score: real, classRank: Option<int>, gradeRank: Option<int>)
    | MissingIdentity
    | UnknownStudent(name: string, number: string)
    | Absent(name: string, number: string)
    | RowError(rowIndex: int)

  /**
   * One data row. Columns 2, 3 and 4 are read first, columns 5 and 7 only
   * after the student was found; a row too short for a column it reads
   * fails with an error.
   */
  function ProcessRow(students: seq<StudentRec>, row: seq<Cell>, rowIndex: int, className: string): (o: RowOutcome)
    ensures o.Saved? ==> |row| >= 7 && ScoreOf(row[3]) == Some(o.score)
                         && o.classRank == RankOf(row[4]) && o.gradeRank == RankOf(row[6])
  {
    if |row| < 4 then RowError(rowIndex)
    else
      var name := CleanStudentName(row[1]);
      var number := if Truthy(row[2]) then StripPy(Str(row[2])) else "";
      if name.None? || number == "" then MissingIdentity
      else match FindStudent(students, name.value, number, className)
        case None => UnknownStudent(name.value, number)
        case Some(id) =>
          if |row| < 7 then RowError(rowIndex)
          else match ScoreOf(row[3])
            case None => Absent(name.value, number)
            case Some(score) => Saved(id, score, RankOf(row[4]), RankOf(row[6]))
  }

  /**
   * A row whose score cell is absent is never saved, and one without a name
   * or a number fails without an error message.
   */
  lemma AbsentRowsAreNotSaved(students: seq<StudentRec>, row: seq<Cell>, rowIndex: int, className: string)
    ensures |row| >= 4 && ScoreOf(row[3]).None? ==> !ProcessRow(students, row, rowIndex, className).Saved?
    ensures |row| >= 4 && (CleanStudentName(row[1]).None? || !Truthy(row[2]))
            ==> ProcessRow(students, row, rowIndex, className) == MissingIdentity
  {
  }

  /** The outcomes of the data rows in sheet order; data row `i` is sheet row `i + 4`. */
  function Outcomes(students: seq<StudentRec>, rows: seq<seq<Cell>>, className: string): (os: seq<RowOutcome>)
    ensures |os| == |rows|
  {
    if |rows| == 0 then []
    else Outcomes(students, rows[..|rows| - 1], className) + [ProcessRow(students, rows[|rows| - 1], |rows| + 3, className)]
  }

  /** Each data row's outcome is that row processed on its own, at its sheet row. */
  lemma {:induction false} OutcomeOfRow(students: seq<StudentRec>, rows: seq<seq<Cell>>, className: string, i: nat)
    requires i < |rows|
    ensures Outcomes(students, rows, className)[i] == ProcessRow(students, rows[i], i + 4, className)
  {
    if i < |rows| - 1 {
      var init := rows[..|rows| - 1];
      OutcomeOfRow(students, init, className, i);
      assert init[i] == rows[i];
    }
  }

  lemma OutcomesSnoc(students: seq<StudentRec>, rows: seq<seq<Cell>>, i: nat, className: string)
    requires i < |rows|
    ensures Outcomes(students, rows[..i + 1], className)
            == Outcomes(students, rows[..i], className) + [ProcessRow(students, rows[i], i + 4, className)]
  {
    assert rows[..i + 1][..i] == rows[..i];
  }

  function SavedCount(os: seq<RowOutcome>): (n: nat)
    ensures n <= |os|
  {
    if |os| == 0 then 0 else SavedCount(os[..|os| - 1]) + (if os[|os| - 1].Saved? then 1 else 0)
  }

  datatype ImportError = NotFound(name: string, number: string) | AbsentStudent(name: string, number: string) | RowFailed(rowIndex: int)

  function ErrorOf(o: RowOutcome): seq<ImportError>
  {
    match o
    case UnknownStudent(n, num) => [NotFound(n, num)]
    case Absent(n, num) => [AbsentStudent(n, num)]
    case RowError(k) => [RowFailed(k)]
    case _ => []
  }

  function ErrorsOf(os: seq<RowOutcome>): seq<ImportError>
  {
    if |os| == 0 then [] else ErrorsOf(os[..|os| - 1]) + ErrorOf(os[|os| - 1])
  }

  /** The TimeLimitScores key (TimeLimitExamId, StudentId, SubjectId). */
  datatype ScoreKey = ScoreKey(examId: int, studentId: int, subjectId: int)
  datatype ScoreEntry = ScoreEntry(score: real, classRank: Option<int>, gradeRank: Option<int>)

  /** The table after the saved rows were written in order (update when present, insert otherwise). */
  function Upsert(table: map<ScoreKey, ScoreEntry>, examId: int, subjectId: int, os: seq<RowOutcome>): map<ScoreKey, ScoreEntry>
  {
    if |os| == 0 then table
    else
      var t := Upsert(table, examId, subjectId, os[..|os| - 1]);
      match os[|os| - 1]
      case Saved(id, score, cr, gr) => t[ScoreKey(examId, id, subjectId) := ScoreEntry(score, cr, gr)]
      case _ => t
  }

  predicate SavesKey(o: RowOutcome, examId: int, subjectId: int, k: ScoreKey)
  {
    o.Saved? && ScoreKey(examId, o.studentId, subjectId) == k
  }

  /** A key no saved row writes keeps its old entry, or stays absent. */
  lemma {:induction false} UpsertLeavesOtherKeys(table: map<ScoreKey, ScoreEntry>, examId: int, subjectId: int,
                                                 os: seq<RowOutcome>, k: ScoreKey)
    requires forall i :: 0 <= i < |os| ==> !SavesKey(os[i], examId, subjectId, k)
    ensures k in Upsert(table, examId, subjectId, os) <==> k in table
    ensures k in table ==> Upsert(table, examId, subjectId, os)[k] == table[k]
  {
    if |os| > 0 {
      UpsertLeavesOtherKeys(table, examId, subjectId, os[..|os| - 1], k);
    }
  }

  /** A key holds the entry of the last row that saved it: one row per (exam, student, subject). */
  lemma {:induction false} UpsertLastRowWins(table: map<ScoreKey, ScoreEntry>, examId: int, subjectId: int,
                                             os: seq<RowOutcome>, i: nat)
    requires i < |os| && os[i].Saved?
    requires forall j :: i < j < |os| ==> !SavesKey(os[j], examId, subjectId, ScoreKey(examId, os[i].studentId, subjectId))
    ensures var k := ScoreKey(examId, os[i].studentId, subjectId);
            k in Upsert(table, examId, subjectId, os)
            && Upsert(table, examId, subjectId, os)[k] == ScoreEntry(os[i].score, os[i].classRank, os[i].gradeRank)
  {
    if i < |os| - 1 {
      UpsertLastRowWins(table, examId, subjectId, os[..|os| - 1], i);
    }
  }

  lemma FoldSnoc(table: map<ScoreKey, ScoreEntry>, examId: int, subjectId: int, os: seq<RowOutcome>, o: RowOutcome)
    ensures SavedCount(os + [o]) == SavedCount(os) + (if o.Saved? then 1 else 0)
    ensures ErrorsOf(os + [o]) == ErrorsOf(os) + ErrorOf(o)
    ensures Upsert(table, examId, subjectId, os + [o]) == Stored(Upsert(table, examId, subjectId, os), examId, subjectId, o)
  {
    assert (os + [o])[..|os|] == os;
  }

  /** The table after one row's outcome: a saved row's entry is written under its key. */
  function Stored(table: map<ScoreKey, ScoreEntry>, examId: int, subjectId: int, o: RowOutcome): map<ScoreKey, ScoreEntry>
  {
    if o.Saved? then table[ScoreKey(examId, o.studentId, subjectId) := ScoreEntry(o.score, o.classRank, o.gradeRank)]
    else table
  }

  /** The import loop's state after the first `i` rows, whose outcomes are `done`. */
  ghost predicate ImportedSoFar(students: seq<StudentRec>, rows: seq<seq<Cell>>, className: string, examId: int, subjectId: int,
                                table: map<ScoreKey, ScoreEntry>, i: nat, done: seq<RowOutcome>,
                                success: nat, fail: nat, errors: seq<ImportError>, updated: map<ScoreKey, ScoreEntry>)
    requires i <= |rows|
  {
    && done == Outcomes(students, rows[..i], className)
    && success + fail == i
    && success == SavedCount(done)
    && errors == ErrorsOf(done)
    && updated == Upsert(table, examId, subjectId, done)
  }

  /** Row `i`'s outcome adds to one counter, appends its error if any, and writes its entry if saved. */
  lemma ImportStep(students: seq<StudentRec>, rows: seq<seq<Cell>>, className: string, examId: int, subjectId: int,
                   table: map<ScoreKey, ScoreEntry>, i: nat, done: seq<RowOutcome>,
                   success: nat, fail: nat, errors: seq<ImportError>, updated: map<ScoreKey, ScoreEntry>, o: RowOutcome)
    requires i < |rows| && o == ProcessRow(students, rows[i], i + 4, className)
    requires ImportedSoFar(students, rows, className, examId, subjectId, table, i, done, success, fail, errors, updated)
    ensures ImportedSoFar(students, rows, className, examId, subjectId, table, i + 1, done + [o],
                          success + (if o.Saved? then 1 else 0), fail + (if o.Saved? then 0 else 1),
                          errors + ErrorOf(o), Stored(updated, examId, subjectId, o))
  {
    OutcomesSnoc(students, rows, i, className);
    FoldSnoc(table, examId, subjectId, done, o);
  }

  /** One data row read into its outcome. */
  method ReadRow(students: seq<StudentRec>, row: seq<Cell>, rowIndex: int, className: string) returns (o: RowOutcome)
    ensures o == ProcessRow(students, row, rowIndex, className)
  {
    o := ProcessRow(students, row, rowIndex, className);
  }

  /**
   * import_time_limit_sheet: each data row adds to exactly one of the two
   * counters; failures other than a missing name or number leave an error.
   */
  method ImportSheet(students: seq<StudentRec>, rows: seq<seq<Cell>>, examId: int, subjectId: int, className: string,
                     table: map<ScoreKey, ScoreEntry>)
    returns (success: nat, fail: nat, errors: seq<ImportError>, updated: map<ScoreKey, ScoreEntry>)
    ensures success + fail == |rows|
    ensures success == SavedCount(Outcomes(students, rows, className))
    ensures errors == ErrorsOf(Outcomes(students, rows, className))
    ensures updated == Upsert(table, examId, subjectId, Outcomes(students, rows, className))
  {
    success, fail, errors, updated := 0, 0, [], table;
    ghost var done: seq<RowOutcome> := [];
    var i := 0;
    while i < |rows|
      invariant 0 <= i <= |rows|
      invariant ImportedSoFar(students, rows, className, examId, subjectId, table, i, done, success, fail, errors, updated)
    {
      var o := ReadRow(students, rows[i], i + 4, className);
      ImportStep(students, rows, className, examId, subjectId, table, i, done, success, fail, errors, updated, o);
      if o.Saved? {
        success := success + 1;
      } else {
        fail := fail + 1;
      }
      updated := Stored(updated, examId, subjectId, o);
      errors := errors + ErrorOf(o);
      done := done + [o];
      i := i + 1;
    }
    assert rows[..i] == rows;
  }
}
