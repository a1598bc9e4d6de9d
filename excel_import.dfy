// The command-line Excel importer (version 2): header-to-column mapping for
// the student and score sheets, the per-row rules of both imports, the
// Students and Scores upserts with their counters, and the score-change
// labelling of the trend report.

module ExcelImport {
  import opened Common
  import opened Sheet
  import TL = TimeLimitImporter

  // ---------------------------------------------------------------------------
  // Header rows and column maps
  // ---------------------------------------------------------------------------

  /** `[str(v).strip() if v else "" for v in first_row]`. */
  function Headers(cells: seq<Cell>): (hs: seq<string>)
    ensures |hs| == |cells|
    ensures forall i :: 0 <= i < |cells| ==> hs[i] == StrippedOrEmpty(cells[i])
  {
    seq(|cells|, i requires 0 <= i < |cells| => StrippedOrEmpty(cells[i]))
  }

  /** Every key in `ks` now points at column `i`; the other keys keep their column. */
  function Assign<K>(m: map<K, nat>, ks: set<K>, i: nat): map<K, nat>
  {
    map k | k in m.Keys + ks :: if k in ks then i else m[k]
  }

  /**
   * The column map a header loop builds when header `i` claims the keys
   * `claims[i]`: `col_map[key] = idx`, later headers overwriting earlier ones.
   */
  function ColumnMap<K>(claims: seq<set<K>>): map<K, nat>
  {
    if |claims| == 0 then map[]
    else Assign(ColumnMap(claims[..|claims| - 1]), claims[|claims| - 1], |claims| - 1)
  }

  /** A key is mapped iff some header claims it, and it points at the last such header. */
  lemma {:induction false} ColumnMapLastWins<K>(claims: seq<set<K>>, k: K)
    ensures k in ColumnMap(claims) <==> exists i :: 0 <= i < |claims| && k in claims[i]
    ensures k in ColumnMap(claims) ==>
              var c := ColumnMap(claims)[k];
              c < |claims| && k in claims[c] && forall j :: c < j < |claims| ==> k !in claims[j]
  {
    if |claims| > 0 {
      var n := |claims| - 1;
      var init := claims[..n];
      ColumnMapLastWins(init, k);
      assert forall i :: 0 <= i < n ==> init[i] == claims[i];
      if k in claims[n] {
        assert ColumnMap(claims)[k] == n;
      } else if k in ColumnMap(init) {
        assert ColumnMap(claims)[k] == ColumnMap(init)[k];
      }
    }
  }

  /** One more header in the loop: its claims are assigned on top of the map so far. */
  lemma ColumnMapStep<K>(claims: seq<set<K>>, idx: nat)
    requires idx < |claims|
    ensures ColumnMap(claims[..idx + 1]) == Assign(ColumnMap(claims[..idx]), claims[idx], idx)
  {
    assert claims[..idx + 1][..idx] == claims[..idx];
  }

  lemma AssignOne<K>(m: map<K, nat>, k: K, i: nat)
    ensures Assign(m, {k}, i) == m[k := i]
    ensures Assign(m, {}, i) == m
  {
  }

  // ---------------------------------------------------------------------------
  // import_students
  // ---------------------------------------------------------------------------

  datatype StudentField = NumberField | NameField | ClassField | GenderField

  /** The elif chain over one student-sheet header: at most one role per header. */
  function StudentFieldOf(header: string): Option<StudentField>
  {
    if Contains(header, "学号") || Contains(header, "考号") then Some(NumberField)
    else if Contains(header, "姓名") then Some(NameField)
    else if Contains(header, "班级") then Some(ClassField)
    else if Contains(header, "性别") then Some(GenderField)
    else None
  }

  function StudentClaims(headers: seq<string>): (cs: seq<set<StudentField>>)
    ensures |cs| == |headers|
    ensures forall i :: 0 <= i < |headers| ==> |cs[i]| <= 1
  {
    seq(|headers|, i requires 0 <= i < |headers| =>
      if headers[i] == "" then {}
      else match StudentFieldOf(headers[i])
        case Some(f) => {f}
        case None => {})
  }

  /**
   * The roles a student sheet's headers take: a role is mapped iff some
   * header names it, to the last header that does, and the number role wins
   * over the name, class and gender roles in one header.
   */
  lemma StudentColumnRoles(headers: seq<string>, f: StudentField)
    ensures var cols := ColumnMap(StudentClaims(headers));
            (f in cols <==> exists i :: 0 <= i < |headers| && headers[i] != "" && StudentFieldOf(headers[i]) == Some(f))
            && (f in cols ==> cols[f] < |headers| && StudentFieldOf(headers[cols[f]]) == Some(f)
                              && forall j :: cols[f] < j < |headers| ==> headers[j] == "" || StudentFieldOf(headers[j]) != Some(f))
  {
    var cs := StudentClaims(headers);
    ColumnMapLastWins(cs, f);
    assert forall i :: 0 <= i < |headers| ==> (f in cs[i] <==> headers[i] != "" && StudentFieldOf(headers[i]) == Some(f));
  }

  /** The header loop of import_students. */
  method MapStudentColumns(headerRow: seq<Cell>) returns (cols: map<StudentField, nat>)
    ensures cols == ColumnMap(StudentClaims(Headers(headerRow)))
  {
    var headers := Headers(headerRow);
    ghost var claims := StudentClaims(headers);
    cols := map[];
    for idx := 0 to |headers|
      invariant cols == ColumnMap(claims[..idx])
    {
      ColumnMapStep(claims, idx);
      var header := headers[idx];
      if header != "" {
        var f := StudentFieldOf(header);
        if f.Some? {
          assert claims[idx] == {f.value};
          AssignOne(cols, f.value, idx);
          cols := cols[f.value := idx];
        } else {
          assert claims[idx] == {};
          AssignOne(cols, NumberField, idx);
        }
      } else {
        assert claims[idx] == {};
        AssignOne(cols, NumberField, idx);
      }
    }
    assert claims[..|headers|] == claims;
  }

  /**
   * The text a mapped column gives for a row: "" when the column is not
   * mapped, `str(v).strip()` of a truthy cell, and None when the row is too
   * short for the column (an IndexError).
   */
  function FieldText<K>(row: seq<Cell>, cols: map<K, nat>, k: K): (r: Option<string>)
    ensures r.None? <==> k in cols && cols[k] >= |row|
    ensures k !in cols ==> r == Some("")
  {
    if k !in cols then Some("")
    else if cols[k] < |row| then Some(StrippedOrEmpty(row[cols[k]]))
    else None
  }

  datatype StudentRow = Skipped | Keep(number: string, name: string, className: string)

  /**
   * One student row. None is the IndexError of a row shorter than a mapped
   * column: it is raised outside the per-row `try`, so it ends the import.
   */
  function ReadStudentRow(row: seq<Cell>, cols: map<StudentField, nat>, defaultClass: string): (r: Option<StudentRow>)
    ensures r.None? <==> exists f :: f in cols && f != GenderField && cols[f] >= |row|
    ensures NumberField !in cols && r.Some? ==> r.value.Skipped?
    ensures r.Some? && r.value.Keep? ==>
              var k := r.value;
              k.number == FieldText(row, cols, NumberField).value && k.number != "" && k.number != "None"
              && k.name == FieldText(row, cols, NameField).value && k.name != ""
              && k.className == (if FieldText(row, cols, ClassField).value == "" then defaultClass
                                 else FieldText(row, cols, ClassField).value)
  {
    var number := FieldText(row, cols, NumberField);
    var name := FieldText(row, cols, NameField);
    var cls := FieldText(row, cols, ClassField);
    if number.None? || name.None? || cls.None? then
      assert number.None? ==> NumberField in cols && cols[NumberField] >= |row|;
      assert name.None? ==> NameField in cols && cols[NameField] >= |row|;
      assert cls.None? ==> ClassField in cols && cols[ClassField] >= |row|;
      None
    else
      assert forall f :: f in cols ==> f == GenderField || f == NumberField || f == NameField || f == ClassField;
      var className := if cls.value == "" && defaultClass != "" then defaultClass else cls.value;
      if number.value == "" || number.value == "None" || name.value == "" then Some(Skipped)
      else Some(Keep(number.value, name.value, className))
  }

  /** The rows as read, or None when some row ends the import. */
  function ReadStudentRows(rows: seq<seq<Cell>>, cols: map<StudentField, nat>, defaultClass: string): (r: Option<seq<StudentRow>>)
    ensures r.None? <==> exists i :: 0 <= i < |rows| && ReadStudentRow(rows[i], cols, defaultClass).None?
    ensures r.Some? ==> |r.value| == |rows|
                        && forall i :: 0 <= i < |rows| ==> Some(r.value[i]) == ReadStudentRow(rows[i], cols, defaultClass)
  {
    if |rows| == 0 then Some([])
    else
      var init := ReadStudentRows(rows[..|rows| - 1], cols, defaultClass);
      var last := ReadStudentRow(rows[|rows| - 1], cols, defaultClass);
      assert forall i :: 0 <= i < |rows| - 1 ==> rows[..|rows| - 1][i] == rows[i];
      if init.None? || last.None? then None else Some(init.value + [last.value])
  }

  datatype StudentEntry = StudentEntry(name: string, className: string)

  /** The Students table keyed by StudentNumber, with the two counters. */
  datatype StudentTally = StudentTally(inserted: nat, updated: nat, table: map<string, StudentEntry>)

  /** An existing number is updated (`updated`), a new one inserted (`success`). */
  function SaveStudent(t: StudentTally, r: StudentRow): StudentTally
  {
    match r
    case Skipped => t
    case Keep(number, name, cls) =>
      if number in t.table then StudentTally(t.inserted, t.updated + 1, t.table[number := StudentEntry(name, cls)])
      else StudentTally(t.inserted + 1, t.updated, t.table[number := StudentEntry(name, cls)])
  }

  function SaveStudents(t: StudentTally, rs: seq<StudentRow>): StudentTally
  {
    if |rs| == 0 then t else SaveStudent(SaveStudents(t, rs[..|rs| - 1]), rs[|rs| - 1])
  }

  function KeptCount(rs: seq<StudentRow>): nat
  {
    if |rs| == 0 then 0 else KeptCount(rs[..|rs| - 1]) + (if rs[|rs| - 1].Keep? then 1 else 0)
  }

  /**
   * Every kept row adds to exactly one counter, and the table grows by
   * exactly the number of inserts.
   */
  lemma {:induction false} SaveStudentsCounts(t: StudentTally, rs: seq<StudentRow>)
    ensures var u := SaveStudents(t, rs);
            u.inserted + u.updated == t.inserted + t.updated + KeptCount(rs)
            && |u.table.Keys| + t.inserted == |t.table.Keys| + u.inserted
  {
    if |rs| > 0 {
      SaveStudentsCounts(t, rs[..|rs| - 1]);
      var m := SaveStudents(t, rs[..|rs| - 1]);
      var r := rs[|rs| - 1];
      if r.Keep? && r.number !in m.table {
        assert m.table[r.number := StudentEntry(r.name, r.className)].Keys == m.table.Keys + {r.number};
      } else if r.Keep? {
        assert m.table[r.number := StudentEntry(r.name, r.className)].Keys == m.table.Keys;
      }
    }
  }

  lemma SaveStudentsSnoc(t: StudentTally, rs: seq<StudentRow>, r: StudentRow)
    ensures SaveStudents(t, rs + [r]) == SaveStudent(SaveStudents(t, rs), r)
  {
    assert (rs + [r])[..|rs|] == rs;
  }

  predicate KeepsNumber(r: StudentRow, number: string)
  {
    r.Keep? && r.number == number
  }

  /** A number no row keeps is untouched. */
  lemma {:induction false} SaveStudentsLeavesOthers(t: StudentTally, rs: seq<StudentRow>, number: string)
    requires forall i :: 0 <= i < |rs| ==> !KeepsNumber(rs[i], number)
    ensures number in SaveStudents(t, rs).table <==> number in t.table
    ensures number in t.table ==> SaveStudents(t, rs).table[number] == t.table[number]
  {
    if |rs| > 0 {
      var init := rs[..|rs| - 1];
      assert forall i :: 0 <= i < |init| ==> init[i] == rs[i];
      SaveStudentsLeavesOthers(t, init, number);
    }
  }

  /** A number holds the name and class of the last row that kept it. */
  lemma {:induction false} SaveStudentsLastRowWins(t: StudentTally, rs: seq<StudentRow>, i: nat)
    requires i < |rs| && rs[i].Keep?
    requires forall j :: i < j < |rs| ==> !KeepsNumber(rs[j], rs[i].number)
    ensures rs[i].number in SaveStudents(t, rs).table
    ensures SaveStudents(t, rs).table[rs[i].number] == StudentEntry(rs[i].name, rs[i].className)
  {
    var init := rs[..|rs| - 1];
    if i < |rs| - 1 {
      assert forall j :: i < j < |init| ==> init[j] == rs[j];
      SaveStudentsLastRowWins(t, init, i);
    }
  }

  datatype StudentImport = StudentsAborted | StudentsImported(inserted: nat, updated: nat)

  /**
   * import_students: map the header, then read every row from the second
   * one on and save the kept rows. A row too short for a mapped column ends
   * the import before the commit, so the table is left as it was.
   */
  method ImportStudents(headerRow: seq<Cell>, rows: seq<seq<Cell>>, defaultClass: string,
                        table: map<string, StudentEntry>)
    returns (result: StudentImport, table': map<string, StudentEntry>)
    ensures var read := ReadStudentRows(rows, ColumnMap(StudentClaims(Headers(headerRow))), defaultClass);
            (result.StudentsAborted? <==> read.None?)
            && (read.None? ==> table' == table)
            && (read.Some? ==> StudentTally(result.inserted, result.updated, table')
                                 == SaveStudents(StudentTally(0, 0, table), read.value))
  {
    var cols := MapStudentColumns(headerRow);
    var t := StudentTally(0, 0, table);
    ghost var done: seq<StudentRow> := [];
    var i := 0;
    while i < |rows|
      invariant 0 <= i <= |rows|
      invariant ReadStudentRows(rows[..i], cols, defaultClass) == Some(done)
      invariant t == SaveStudents(StudentTally(0, 0, table), done)
    {
      ReadStudentRowsSnoc(rows, cols, defaultClass, i);
      var r := ReadStudentRow(rows[i], cols, defaultClass);
      if r.None? {
        StudentsAbortPropagates(rows, cols, defaultClass, i + 1);
        return StudentsAborted, table;
      }
      SaveStudentsSnoc(StudentTally(0, 0, table), done, r.value);
      t := SaveStudentRow(t, r.value);
      done := done + [r.value];
      i := i + 1;
    }
    assert rows[..i] == rows;
    result, table' := StudentsImported(t.inserted, t.updated), t.table;
  }

  /** The `try` block of one kept row: update an existing number, insert a new one. */
  method SaveStudentRow(t: StudentTally, r: StudentRow) returns (t': StudentTally)
    ensures t' == SaveStudent(t, r)
  {
    t' := t;
    match r {
      case Skipped =>
      case Keep(number, name, cls) =>
        if number in t.table {
          t' := StudentTally(t.inserted, t.updated + 1, t.table[number := StudentEntry(name, cls)]);
        } else {
          t' := StudentTally(t.inserted + 1, t.updated, t.table[number := StudentEntry(name, cls)]);
        }
    }
  }

  lemma ReadStudentRowsSnoc(rows: seq<seq<Cell>>, cols: map<StudentField, nat>, defaultClass: string, i: nat)
    requires i < |rows|
    ensures var init := ReadStudentRows(rows[..i], cols, defaultClass);
            var last := ReadStudentRow(rows[i], cols, defaultClass);
            ReadStudentRows(rows[..i + 1], cols, defaultClass)
              == if init.None? || last.None? then None else Some(init.value + [last.value])
  {
    assert rows[..i + 1][..i] == rows[..i];
  }

  lemma StudentsAbortPropagates(rows: seq<seq<Cell>>, cols: map<StudentField, nat>, defaultClass: string, n: nat)
    requires n <= |rows| && ReadStudentRows(rows[..n], cols, defaultClass).None?
    ensures ReadStudentRows(rows, cols, defaultClass).None?
  {
    var i :| 0 <= i < n && ReadStudentRow(rows[..n][i], cols, defaultClass).None?;
    assert rows[..n][i] == rows[i];
  }

  // ---------------------------------------------------------------------------
  // import_scores: the exam id and the header mapping
  // ---------------------------------------------------------------------------

  /** `exam_id.isdigit()` on the stripped input, then `int(exam_id)`. */
  function ExamIdOf(input: string): (r: Option<nat>)
    ensures r.Some? <==> IsDigitString(StripPy(input))
  {
    var t := StripPy(input);
    if IsDigitString(t) then Some(DigitsValue(t)) else None
  }

  /** A number typed in decimal is accepted as that exam id. */
  lemma ExamIdReadsBack(n: nat)
    ensures ExamIdOf(NatToString(n)) == Some(n)
  {
    NatToStringValue(n);
    StripDigits(NatToString(n));
  }

  datatype ScoreColumn = NumberCol | NameCol | ClassCol
                       | ScoreCol(subject: string) | ClassRankCol(subject: string) | GradeRankCol(subject: string)

  /** The subjects whose columns the header loop looks for. */
  const HeaderSubjects: seq<string> := ["语文", "数学", "英语", "物理", "化学", "生物", "政治", "历史", "地理"]

  /** SUBJECT_IDS in its declaration order; 总分 (the total) is subject 10. */
  const SubjectIds: seq<(string, int)> :=
    [("语文", 1), ("数学", 2), ("英语", 3), ("物理", 4), ("化学", 5), ("生物", 6), ("政治", 7), ("历史", 8), ("地理", 9), ("总分", 10)]

  const TotalSubject: string := "总分"

  predicate IsScoreHeader(header: string, s: string)
  {
    s == header || Contains(header, s + "成绩") || Contains(header, s + "分数")
  }

  predicate IsClassRankHeader(header: string, s: string)
  {
    Contains(header, s + "班名次") || Contains(header, s + "班级名次") || Contains(header, s + "班级排名")
  }

  predicate IsGradeRankHeader(header: string, s: string)
  {
    Contains(header, s + "年级名次") || Contains(header, s + "年级排名") || Contains(header, s + "校名次")
  }

  /** The score / class-rank / grade-rank elif chain for one subject. */
  function SubjectClaim(header: string, s: string): set<ScoreColumn>
  {
    if IsScoreHeader(header, s) then {ScoreCol(s)}
    else if IsClassRankHeader(header, s) then {ClassRankCol(s)}
    else if IsGradeRankHeader(header, s) then {GradeRankCol(s)}
    else {}
  }

  function SubjectClaims(header: string, subjects: seq<string>): set<ScoreColumn>
  {
    if |subjects| == 0 then {}
    else SubjectClaims(header, subjects[..|subjects| - 1]) + SubjectClaim(header, subjects[|subjects| - 1])
  }

  /** The keys claimed by the header loop's `if`s outside the per-subject chain; the only subject they name is the total. */
  function FixedClaims(header: string): (r: set<ScoreColumn>)
    ensures forall c :: c in r ==> c.NumberCol? || c.NameCol? || c.ClassCol? || c.subject == TotalSubject
  {
    (if Contains(header, "学号") || Contains(header, "考号") then {NumberCol}
     else if Contains(header, "姓名") then {NameCol} else {})
    + (if Contains(header, "班级") then {ClassCol} else {})
    + (if Contains(header, "总分分数") || header == TotalSubject then {ScoreCol(TotalSubject)} else {})
    + (if Contains(header, "总分校名次") || Contains(header, "总分班级排名") then {GradeRankCol(TotalSubject)} else {})
    + (if Contains(header, "总分班名次") || Contains(header, "总分班级名次") then {ClassRankCol(TotalSubject)} else {})
  }

  /** Every key a score-sheet header claims (the independent `if`s of the header loop). */
  function ScoreClaims(header: string): set<ScoreColumn>
  {
    if header == "" then {} else FixedClaims(header) + SubjectClaims(header, HeaderSubjects)
  }

  lemma {:induction false} SubjectClaimsMeaning(header: string, subjects: seq<string>, s: string)
    ensures ScoreCol(s) in SubjectClaims(header, subjects) <==> s in subjects && IsScoreHeader(header, s)
    ensures ClassRankCol(s) in SubjectClaims(header, subjects) <==>
              s in subjects && !IsScoreHeader(header, s) && IsClassRankHeader(header, s)
    ensures GradeRankCol(s) in SubjectClaims(header, subjects) <==>
              s in subjects && !IsScoreHeader(header, s) && !IsClassRankHeader(header, s) && IsGradeRankHeader(header, s)
  {
    if |subjects| > 0 {
      var init := subjects[..|subjects| - 1];
      SubjectClaimsMeaning(header, init, s);
      assert subjects == init + [subjects[|subjects| - 1]];
    }
  }

  /**
   * For the nine named subjects, a non-empty header is the score column when
   * it equals the subject or contains subject+成绩/分数; otherwise a class-rank
   * variant makes it the class-rank column, and otherwise a grade-rank
   * variant the grade-rank column.
   */
  lemma SubjectHeaderRoles(header: string, s: string)
    requires s in HeaderSubjects && header != ""
    ensures ScoreCol(s) in ScoreClaims(header) <==> IsScoreHeader(header, s)
    ensures ClassRankCol(s) in ScoreClaims(header) <==> !IsScoreHeader(header, s) && IsClassRankHeader(header, s)
    ensures GradeRankCol(s) in ScoreClaims(header) <==>
              !IsScoreHeader(header, s) && !IsClassRankHeader(header, s) && IsGradeRankHeader(header, s)
  {
    SubjectClaimsMeaning(header, HeaderSubjects, s);
    assert s != TotalSubject;
    var fixed := FixedClaims(header);
    assert ScoreCol(s) !in fixed && ClassRankCol(s) !in fixed && GradeRankCol(s) !in fixed;
  }

  /** A piece of a piece of the header is a piece of the header. */
  lemma ContainsMiddle(h: string, a: string, b: string, c: string)
    requires Contains(h, a + b + c)
    ensures Contains(h, b)
  {
    ContainsAt(h, a + b + c);
    ContainsAt(h, b);
    var i :| OccursAt(h, a + b + c, i);
    forall k | 0 <= k < |b|
      ensures h[i + |a| + k] == b[k]
    {
      assert h[i..i + |a + b + c|][|a| + k] == (a + b + c)[|a| + k];
    }
    assert h[i + |a|..i + |a| + |b|] == b;
    assert OccursAt(h, b, i + |a|);
  }

  /**
   * A subject's 班级名次 / 班级排名 header also contains 班级, so besides the
   * rank column it moves the class column, as written.
   */
  lemma ClassRankHeaderAlsoClaimsClass(header: string, s: string)
    requires header != ""
    requires Contains(header, s + "班级名次") || Contains(header, s + "班级排名")
    ensures ClassCol in ScoreClaims(header)
  {
    if Contains(header, s + "班级名次") {
      assert s + "班级名次" == s + "班级" + "名次";
      ContainsMiddle(header, s, "班级", "名次");
    } else {
      assert s + "班级排名" == s + "班级" + "排名";
      ContainsMiddle(header, s, "班级", "排名");
    }
  }

  /** A header naming the total's 班级排名 is taken as the total's grade-rank column, as written. */
  lemma TotalClassRankingIsGradeRank(header: string)
    requires header != "" && Contains(header, "总分班级排名")
    ensures GradeRankCol(TotalSubject) in ScoreClaims(header)
  {
  }

  /** The total's class-rank column comes only from its 班名次 and 班级名次 headers. */
  lemma TotalClassRankColumn(header: string)
    ensures ClassRankCol(TotalSubject) in ScoreClaims(header) <==>
              header != "" && (Contains(header, "总分班名次") || Contains(header, "总分班级名次"))
  {
    SubjectClaimsTotal(header, HeaderSubjects);
  }

  lemma {:induction false} SubjectClaimsTotal(header: string, subjects: seq<string>)
    requires TotalSubject !in subjects
    ensures ClassRankCol(TotalSubject) !in SubjectClaims(header, subjects)
  {
    if |subjects| > 0 {
      SubjectClaimsTotal(header, subjects[..|subjects| - 1]);
      assert subjects[|subjects| - 1] in subjects;
    }
  }

  function ScoreClaimsOf(headers: seq<string>): (cs: seq<set<ScoreColumn>>)
    ensures |cs| == |headers|
    ensures forall i :: 0 <= i < |headers| ==> cs[i] == ScoreClaims(headers[i])
  {
    seq(|headers|, i requires 0 <= i < |headers| => ScoreClaims(headers[i]))
  }

  /** The header loop of import_scores. */
  method MapScoreColumns(headerRow: seq<Cell>) returns (cols: map<ScoreColumn, nat>)
    ensures cols == ColumnMap(ScoreClaimsOf(Headers(headerRow)))
  {
    var headers := Headers(headerRow);
    ghost var claims := ScoreClaimsOf(headers);
    cols := map[];
    for idx := 0 to |headers|
      invariant cols == ColumnMap(claims[..idx])
    {
      assert claims[..idx + 1][..idx] == claims[..idx];
      var ks := ScoreClaims(headers[idx]);
      cols := Assign(cols, ks, idx);
    }
    assert claims[..|headers|] == claims;
  }

  // ---------------------------------------------------------------------------
  // import_scores: the rows
  // ---------------------------------------------------------------------------

  /** `SELECT StudentId ... WHERE StudentName = ?`, first row. */
  function FindByName(students: seq<TL.StudentRec>, name: string): (r: Option<int>)
    ensures r.None? <==> forall i :: 0 <= i < |students| ==> students[i].name != name
    ensures r.Some? ==> exists i :: 0 <= i < |students| && students[i].id == r.value && students[i].name == name
  {
    if |students| == 0 then None
    else if students[0].name == name then Some(students[0].id)
    else
      var r := FindByName(students[1..], name);
      assert forall i :: 1 <= i < |students| ==> students[1..][i - 1] == students[i];
      r
  }

  /** The name lookup: same name in the same class first, then the same name anywhere. */
  function FindNamed(students: seq<TL.StudentRec>, name: string, className: string): (r: Option<int>)
    ensures r.None? <==> forall i :: 0 <= i < |students| ==> students[i].name != name
    ensures r.Some? ==> exists i :: 0 <= i < |students| && students[i].id == r.value && students[i].name == name
  {
    if className != "" then
      match TL.FindByNameInClass(students, name, className)
      case Some(id) => Some(id)
      case None => FindByName(students, name)
    else FindByName(students, name)
  }

  datatype Lookup = LookupAborted | LookupFailed | Found(id: int)

  /** The class, number and name reads of one score row and the student they select. */
  function LookupStudent(row: seq<Cell>, cols: map<ScoreColumn, nat>, students: seq<TL.StudentRec>): (r: Lookup)
    ensures r.Found? ==> exists i :: 0 <= i < |students| && students[i].id == r.id
    ensures r.LookupAborted? ==> exists k :: k in cols && cols[k] >= |row|
    ensures NumberCol !in cols && NameCol !in cols ==> !r.Found?
  {
    var cls := FieldText(row, cols, ClassCol);
    if cls.None? then LookupAborted
    else if NumberCol in cols then
      var number := FieldText(row, cols, NumberCol);
      if number.None? then LookupAborted
      else if number.value != "" && number.value != "None" then
        match TL.FindByNumber(students, number.value)
        case Some(id) => Found(id)
        case None => LookupFailed
      else LookupFailed
    else if NameCol in cols then
      var name := FieldText(row, cols, NameCol);
      if name.None? then LookupAborted
      else if name.value != "" && name.value != "None" then
        match FindNamed(students, name.value, cls.value)
        case Some(id) => Found(id)
        case None => LookupFailed
      else LookupFailed
    else LookupFailed
  }

  /** `float(v)` of a truthy cell, None when it does not parse. */
  function CellScore(c: Cell): (r: Option<real>)
    ensures !Truthy(c) ==> r.None?
  {
    if Truthy(c) then FloatOf(c, Str(c)) else None
  }

  /** `int(float(v))` of a truthy cell, None when it does not parse. */
  function CellRank(c: Cell): (r: Option<int>)
    ensures !Truthy(c) ==> r.None?
    ensures r.Some? ==> CellScore(c).Some? && r.value == TruncToInt(CellScore(c).value)
  {
    if Truthy(c) then
      match FloatOf(c, Str(c))
      case Some(x) => Some(TruncToInt(x))
      case None => None
    else None
  }

  datatype ScoreWrite = ScoreWrite(subjectId: int, entry: TL.ScoreEntry)

  /**
   * One subject of one row: Some(None) when it has no score column or no
   * score, and None when a column it indexes is missing (`row[None]`) or
   * past the end of the row, which ends the import.
   */
  function SubjectWrite(row: seq<Cell>, cols: map<ScoreColumn, nat>, s: string, id: int): (r: Option<Option<ScoreWrite>>)
    ensures ScoreCol(s) !in cols ==> r == Some(None)
    ensures ScoreCol(s) in cols && (ClassRankCol(s) !in cols || GradeRankCol(s) !in cols) ==> r.None?
    ensures r.Some? && r.value.Some? ==>
              ScoreCol(s) in cols && cols[ScoreCol(s)] < |row|
              && r.value.value.subjectId == id
              && CellScore(row[cols[ScoreCol(s)]]) == Some(r.value.value.entry.score)
  {
    if ScoreCol(s) !in cols then Some(None)
    else if cols[ScoreCol(s)] >= |row| then None
    else if ClassRankCol(s) !in cols || cols[ClassRankCol(s)] >= |row| then None
    else if GradeRankCol(s) !in cols || cols[GradeRankCol(s)] >= |row| then None
    else
      match CellScore(row[cols[ScoreCol(s)]])
      case None => Some(None)
      case Some(score) =>
        Some(Some(ScoreWrite(id, TL.ScoreEntry(score, CellRank(row[cols[ClassRankCol(s)]]), CellRank(row[cols[GradeRankCol(s)]])))))
  }

  /** The subject loop of one row, in SUBJECT_IDS order. */
  function SubjectWrites(row: seq<Cell>, cols: map<ScoreColumn, nat>, subjects: seq<(string, int)>): (r: Option<seq<ScoreWrite>>)
    ensures r.None? <==> exists j :: 0 <= j < |subjects| && SubjectWrite(row, cols, subjects[j].0, subjects[j].1).None?
    ensures r.Some? ==> forall w :: w in r.value ==>
              exists j :: 0 <= j < |subjects| && SubjectWrite(row, cols, subjects[j].0, subjects[j].1) == Some(Some(w))
    ensures r.Some? ==> forall j :: 0 <= j < |subjects| && SubjectWrite(row, cols, subjects[j].0, subjects[j].1).value.Some?
                          ==> SubjectWrite(row, cols, subjects[j].0, subjects[j].1).value.value in r.value
  {
    if |subjects| == 0 then Some([])
    else
      var here := SubjectWrite(row, cols, subjects[0].0, subjects[0].1);
      var rest := SubjectWrites(row, cols, subjects[1..]);
      assert forall j :: 1 <= j < |subjects| ==> subjects[1..][j - 1] == subjects[j];
      if here.None? || rest.None? then None
      else Some((if here.value.Some? then [here.value.value] else []) + rest.value)
  }

  datatype ScoreRow = RowSkipped | RowAborted | RowWrites(studentId: int, writes: seq<ScoreWrite>)

  /** One data row of the score sheet. */
  function ReadScoreRow(row: seq<Cell>, cols: map<ScoreColumn, nat>, students: seq<TL.StudentRec>): ScoreRow
  {
    match LookupStudent(row, cols, students)
    case LookupAborted => RowAborted
    case LookupFailed => RowSkipped
    case Found(id) =>
      if id == 0 then RowSkipped
      else match SubjectWrites(row, cols, SubjectIds)
        case None => RowAborted
        case Some(ws) => RowWrites(id, ws)
  }

  /**
   * Scores are written only for subjects with a score column and a score
   * that parses, and every such subject of a matched row is written.
   */
  lemma ScoresComeFromScoreColumns(row: seq<Cell>, cols: map<ScoreColumn, nat>, students: seq<TL.StudentRec>)
    ensures var r := ReadScoreRow(row, cols, students);
            r.RowWrites? ==>
              (forall w :: w in r.writes ==>
                 exists j :: 0 <= j < |SubjectIds| && w.subjectId == SubjectIds[j].1
                             && ScoreCol(SubjectIds[j].0) in cols && cols[ScoreCol(SubjectIds[j].0)] < |row|
                             && CellScore(row[cols[ScoreCol(SubjectIds[j].0)]]) == Some(w.entry.score))
              && (forall j :: 0 <= j < |SubjectIds| && ScoreCol(SubjectIds[j].0) in cols
                             && cols[ScoreCol(SubjectIds[j].0)] < |row|
                             && CellScore(row[cols[ScoreCol(SubjectIds[j].0)]]).Some?
                             ==> exists w :: w in r.writes && w.subjectId == SubjectIds[j].1
                                             && w.entry.score == CellScore(row[cols[ScoreCol(SubjectIds[j].0)]]).value)
  {
    var r := ReadScoreRow(row, cols, students);
    if r.RowWrites? {
      forall j | 0 <= j < |SubjectIds| && ScoreCol(SubjectIds[j].0) in cols
                 && cols[ScoreCol(SubjectIds[j].0)] < |row|
                 && CellScore(row[cols[ScoreCol(SubjectIds[j].0)]]).Some?
        ensures exists w :: w in r.writes && w.subjectId == SubjectIds[j].1
                             && w.entry.score == CellScore(row[cols[ScoreCol(SubjectIds[j].0)]]).value
      {
        var sw := SubjectWrite(row, cols, SubjectIds[j].0, SubjectIds[j].1);
        assert sw.Some? && sw.value.Some?;
        assert sw.value.value in r.writes;
      }
    }
  }

  /**
   * A subject with a score column but without both rank columns makes every
   * row that reaches the subject loop index the row with None: no row is
   * ever written.
   */
  lemma MissingRankColumnWritesNothing(row: seq<Cell>, cols: map<ScoreColumn, nat>, students: seq<TL.StudentRec>, j: nat)
    requires j < |SubjectIds| && ScoreCol(SubjectIds[j].0) in cols
    requires ClassRankCol(SubjectIds[j].0) !in cols || GradeRankCol(SubjectIds[j].0) !in cols
    ensures !ReadScoreRow(row, cols, students).RowWrites?
  {
    assert SubjectWrite(row, cols, SubjectIds[j].0, SubjectIds[j].1).None?;
  }

  datatype ScoreTally = ScoreTally(success: nat, failed: nat, table: map<TL.ScoreKey, TL.ScoreEntry>)

  /** The subject writes of one student: each upserts its (exam, student, subject) row. */
  function ApplyWrites(table: map<TL.ScoreKey, TL.ScoreEntry>, examId: int, studentId: int, ws: seq<ScoreWrite>)
    : map<TL.ScoreKey, TL.ScoreEntry>
  {
    if |ws| == 0 then table
    else ApplyWrites(table, examId, studentId, ws[..|ws| - 1])[TL.ScoreKey(examId, studentId, ws[|ws| - 1].subjectId) := ws[|ws| - 1].entry]
  }

  /** The keys after the writes are the old keys and the written ones; a written key holds its last entry. */
  lemma {:induction false} ApplyWritesKeys(table: map<TL.ScoreKey, TL.ScoreEntry>, examId: int, studentId: int,
                                           ws: seq<ScoreWrite>, k: TL.ScoreKey)
    ensures k in ApplyWrites(table, examId, studentId, ws) <==>
              k in table || exists i :: 0 <= i < |ws| && k == TL.ScoreKey(examId, studentId, ws[i].subjectId)
    ensures (forall i :: 0 <= i < |ws| ==> k != TL.ScoreKey(examId, studentId, ws[i].subjectId)) && k in table ==>
              ApplyWrites(table, examId, studentId, ws)[k] == table[k]
  {
    if |ws| > 0 {
      ApplyWritesKeys(table, examId, studentId, ws[..|ws| - 1], k);
      assert forall i :: 0 <= i < |ws| - 1 ==> ws[..|ws| - 1][i] == ws[i];
    }
  }

  /** A row's effect: a skipped row counts as failed, each write upserts and counts as success. */
  function SaveScoreRow(t: ScoreTally, examId: int, r: ScoreRow): ScoreTally
  {
    match r
    case RowSkipped => ScoreTally(t.success, t.failed + 1, t.table)
    case RowAborted => t
    case RowWrites(id, ws) => ScoreTally(t.success + |ws|, t.failed, ApplyWrites(t.table, examId, id, ws))
  }

  function SaveScoreRows(t: ScoreTally, examId: int, rs: seq<ScoreRow>): ScoreTally
  {
    if |rs| == 0 then t else SaveScoreRow(SaveScoreRows(t, examId, rs[..|rs| - 1]), examId, rs[|rs| - 1])
  }

  function ScoreRows(rows: seq<seq<Cell>>, cols: map<ScoreColumn, nat>, students: seq<TL.StudentRec>): (rs: seq<ScoreRow>)
    ensures |rs| == |rows|
    ensures forall i :: 0 <= i < |rows| ==> rs[i] == ReadScoreRow(rows[i], cols, students)
  {
    seq(|rows|, i requires 0 <= i < |rows| => ReadScoreRow(rows[i], cols, students))
  }

  /** With no row written, success stays 0 and the table keeps every entry. */
  lemma {:induction false} NoWritesSaveNothing(t: ScoreTally, examId: int, rs: seq<ScoreRow>)
    requires forall i :: 0 <= i < |rs| ==> !rs[i].RowWrites?
    ensures SaveScoreRows(t, examId, rs).success == t.success
    ensures SaveScoreRows(t, examId, rs).table == t.table
  {
    if |rs| > 0 {
      NoWritesSaveNothing(t, examId, rs[..|rs| - 1]);
    }
  }

  lemma SaveScoreRowsSnoc(t: ScoreTally, examId: int, rs: seq<ScoreRow>, i: nat)
    requires i < |rs|
    ensures SaveScoreRows(t, examId, rs[..i + 1]) == SaveScoreRow(SaveScoreRows(t, examId, rs[..i]), examId, rs[i])
  {
    assert rs[..i + 1][..i] == rs[..i];
  }

  /**
   * The row loop of import_scores. A row that indexes a missing column ends
   * the whole import before the commit, leaving the Scores table as it was.
   */
  method ImportScoreRows(rows: seq<seq<Cell>>, cols: map<ScoreColumn, nat>, students: seq<TL.StudentRec>, examId: int,
                         table: map<TL.ScoreKey, TL.ScoreEntry>)
    returns (aborted: bool, success: nat, failed: nat, table': map<TL.ScoreKey, TL.ScoreEntry>)
    ensures aborted <==> Aborts(ScoreRows(rows, cols, students))
    ensures aborted ==> table' == table
    ensures !aborted ==> ScoreTally(success, failed, table')
                           == SaveScoreRows(ScoreTally(0, 0, table), examId, ScoreRows(rows, cols, students))
  {
    ghost var rs := ScoreRows(rows, cols, students);
    var t := ScoreTally(0, 0, table);
    var i := 0;
    while i < |rows|
      invariant 0 <= i <= |rows|
      invariant !Aborts(rs[..i])
      invariant t == SaveScoreRows(ScoreTally(0, 0, table), examId, rs[..i])
    {
      SaveScoreRowsSnoc(ScoreTally(0, 0, table), examId, rs, i);
      AbortsSnoc(rs, i);
      var r := ReadScoreRow(rows[i], cols, students);
      assert r == rs[i];
      match r {
        case RowAborted =>
          return true, 0, 0, table;
        case RowSkipped =>
          t := ScoreTally(t.success, t.failed + 1, t.table);
        case RowWrites(id, ws) =>
          var updated := WriteScores(t.table, examId, id, ws);
          t := ScoreTally(t.success + |ws|, t.failed, updated);
      }
      i := i + 1;
    }
    assert rs[..i] == rs;
    aborted, success, failed, table' := false, t.success, t.failed, t.table;
  }

  /** Some row ends the import. */
  predicate Aborts(rs: seq<ScoreRow>)
  {
    exists i :: 0 <= i < |rs| && rs[i].RowAborted?
  }

  lemma AbortsSnoc(rs: seq<ScoreRow>, i: nat)
    requires i < |rs|
    ensures Aborts(rs[..i + 1]) <==> Aborts(rs[..i]) || rs[i].RowAborted?
  {
    assert rs[..i + 1][i] == rs[i];
    if Aborts(rs[..i + 1]) && !rs[i].RowAborted? {
      var j :| 0 <= j < i + 1 && rs[..i + 1][j].RowAborted?;
      assert rs[..i][j] == rs[..i + 1][j];
    }
    if Aborts(rs[..i]) {
      var j :| 0 <= j < i && rs[..i][j].RowAborted?;
      assert rs[..i + 1][j] == rs[..i][j];
    }
  }

  datatype ScoreImport = BadExamId | NoSuchExam | ScoresAborted | ScoresImported(success: nat, failed: nat)

  /**
   * import_scores. The exam id must be all digits and name an existing exam.
   * Subject 10 is then made to exist under the name 总分 and committed at
   * once, so that change survives even when the rows later end the import.
   */
  method ImportScores(examInput: string, exams: set<int>, subjects: map<int, string>, headerRow: seq<Cell>,
                      rows: seq<seq<Cell>>, students: seq<TL.StudentRec>, table: map<TL.ScoreKey, TL.ScoreEntry>)
    returns (result: ScoreImport, subjects': map<int, string>, table': map<TL.ScoreKey, TL.ScoreEntry>)
    ensures ExamIdOf(examInput).None? <==> result == BadExamId
    ensures ExamIdOf(examInput).Some? && ExamIdOf(examInput).value !in exams <==> result == NoSuchExam
    ensures result == BadExamId || result == NoSuchExam ==> subjects' == subjects
    ensures result != BadExamId && result != NoSuchExam ==> subjects' == subjects[10 := TotalSubject]
    ensures !result.ScoresImported? ==> table' == table
    ensures result.ScoresAborted? || result.ScoresImported? ==>
              var cols := ColumnMap(ScoreClaimsOf(Headers(headerRow)));
              (result.ScoresAborted? <==> Aborts(ScoreRows(rows, cols, students)))
              && (result.ScoresImported? ==>
                    ScoreTally(result.success, result.failed, table')
                      == SaveScoreRows(ScoreTally(0, 0, table), ExamIdOf(examInput).value, ScoreRows(rows, cols, students)))
  {
    subjects', table' := subjects, table;
    var examId := ExamIdOf(examInput);
    if examId.None? {
      return BadExamId, subjects', table';
    }
    if examId.value !in exams {
      return NoSuchExam, subjects', table';
    }
    var cols := MapScoreColumns(headerRow);
    if 10 !in subjects || subjects[10] != TotalSubject {
      subjects' := subjects[10 := TotalSubject];
    }
    var aborted, success, failed;
    aborted, success, failed, table' := ImportScoreRows(rows, cols, students, examId.value, table);
    result := if aborted then ScoresAborted else ScoresImported(success, failed);
  }

  /** The inner subject loop's upserts for one student. */
  method WriteScores(table: map<TL.ScoreKey, TL.ScoreEntry>, examId: int, studentId: int, ws: seq<ScoreWrite>)
    returns (updated: map<TL.ScoreKey, TL.ScoreEntry>)
    ensures updated == ApplyWrites(table, examId, studentId, ws)
  {
    updated := table;
    for j := 0 to |ws|
      invariant updated == ApplyWrites(table, examId, studentId, ws[..j])
    {
      assert ws[..j + 1][..j] == ws[..j];
      updated := updated[TL.ScoreKey(examId, studentId, ws[j].subjectId) := ws[j].entry];
    }
    assert ws[..|ws|] == ws;
  }

  // ---------------------------------------------------------------------------
  // query_trend
  // ---------------------------------------------------------------------------

  /** A value of one column of a fetched row. */
  datatype Field = TextField(text: string) | IntField(i: int) | RealField(x: real) | NullField

  /** One row of the trend query, one member per selected column. */
  datatype TrendRow = TrendRow(subject: string, examId: int, examName: string, examDate: string, score: real,
                               classRank: Option<int>, gradeRank: Option<int>,
                               prevScore: Option<real>, prevClassRank: Option<int>)

  function OptInt(r: Option<int>): Field { if r.Some? then IntField(r.value) else NullField }
  function OptReal(r: Option<real>): Field { if r.Some? then RealField(r.value) else NullField }

  /** The row as the cursor returns it: a tuple of the nine selected columns. */
  function Fields(r: TrendRow): (fs: seq<Field>)
    ensures |fs| == 9
  {
    [TextField(r.subject), IntField(r.examId), TextField(r.examName), TextField(r.examDate), RealField(r.score),
     OptInt(r.classRank), OptInt(r.gradeRank), OptReal(r.prevScore), OptInt(r.prevClassRank)]
  }

  /** Python's eight-target tuple assignment: a ValueError unless the tuple has exactly eight items. */
  function UnpackEight(fs: seq<Field>): (r: Option<seq<Field>>)
    ensures r.Some? <==> |fs| == 8
  {
    if |fs| == 8 then Some(fs) else None
  }

  /**
   * The display loop as written over the fetched tuples: each one is
   * unpacked into eight names. None is the ValueError, which nothing catches.
   */
  function TrendDisplayAsWritten(tuples: seq<seq<Field>>): (r: Option<seq<seq<Field>>>)
    ensures r.Some? <==> forall i :: 0 <= i < |tuples| ==> |tuples[i]| == 8
  {
    if |tuples| == 0 then Some([])
    else
      match UnpackEight(tuples[0])
      case None => None
      case Some(fs) =>
        match TrendDisplayAsWritten(tuples[1..])
        case None => None
        case Some(rest) => Some([fs] + rest)
  }

  function Fetched(rows: seq<TrendRow>): (ts: seq<seq<Field>>)
    ensures |ts| == |rows| && forall i :: 0 <= i < |rows| ==> ts[i] == Fields(rows[i])
  {
    seq(|rows|, i requires 0 <= i < |rows| => Fields(rows[i]))
  }

  /** The query selects nine columns, so the report fails on its first row: a student with any score never sees a trend. */
  lemma TrendUnpackAlwaysFails(rows: seq<TrendRow>)
    ensures TrendDisplayAsWritten(Fetched(rows)).None? <==> |rows| > 0
  {
    if |rows| > 0 {
      assert |Fetched(rows)[0]| == 9;
    }
  }

  datatype ScoreChange = NoPrevious | Rise(up: real) | Fall(down: real) | Steady

  /** `if prev_score:` label `score - prev_score` by its sign; a previous score of 0 is falsy. */
  function ChangeOf(score: real, prev: Option<real>): (c: ScoreChange)
    ensures c.NoPrevious? <==> prev.None? || prev.value == 0.0
    ensures c.Rise? <==> prev.Some? && prev.value != 0.0 && score > prev.value
    ensures c.Fall? <==> prev.Some? && prev.value != 0.0 && score < prev.value
    ensures c.Steady? <==> prev.Some? && prev.value != 0.0 && score == prev.value
    ensures c.Rise? ==> c.up == score - prev.value && c.up > 0.0
    ensures c.Fall? ==> c.down == score - prev.value && c.down < 0.0
  {
    if prev.None? || prev.value == 0.0 then NoPrevious
    else
      var change := score - prev.value;
      if change > 0.0 then Rise(change)
      else if change < 0.0 then Fall(change)
      else Steady
  }

  function TrendMark(c: ScoreChange): string
  {
    match c
    case NoPrevious => ""
    case Rise(_) => "↑ 进步"
    case Fall(_) => "↓ 退步"
    case Steady => "- 持平"
  }

  /** Each mark is given exactly when its condition holds. */
  lemma TrendMarkMeaning(score: real, prev: Option<real>)
    ensures TrendMark(ChangeOf(score, prev)) == "↑ 进步" <==> prev.Some? && prev.value != 0.0 && score > prev.value
    ensures TrendMark(ChangeOf(score, prev)) == "↓ 退步" <==> prev.Some? && prev.value != 0.0 && score < prev.value
    ensures TrendMark(ChangeOf(score, prev)) == "- 持平" <==> prev.Some? && prev.value != 0.0 && score == prev.value
    ensures TrendMark(ChangeOf(score, prev)) == "" <==> prev.None? || prev.value == 0.0
  {
  }

  datatype TrendLine = TrendLine(examName: string, examDate: string, score: real, classRank: Option<int>,
                                 prevScore: Option<real>, change: ScoreChange, mark: string)

  /** The displayed line of a row, unpacking all nine columns. */
  function TrendLineOf(r: TrendRow): (l: TrendLine)
    ensures l.change == ChangeOf(r.score, r.prevScore) && l.mark == TrendMark(l.change)
    ensures l.examName == r.examName && l.examDate == r.examDate && l.score == r.score
  {
    TrendLine(r.examName, r.examDate, r.score, r.classRank, r.prevScore,
              ChangeOf(r.score, r.prevScore), TrendMark(ChangeOf(r.score, r.prevScore)))
  }

  function Subjects(rows: seq<TrendRow>): (ss: seq<string>)
    ensures |ss| == |rows| && forall i :: 0 <= i < |rows| ==> ss[i] == rows[i].subject
  {
    seq(|rows|, i requires 0 <= i < |rows| => rows[i].subject)
  }

  /** The distinct items of `xs` in order of first appearance (a dict's key order). */
  function FirstOccurrences(xs: seq<string>): (r: seq<string>)
    ensures forall x :: x in r <==> x in xs
    ensures forall i, j :: 0 <= i < j < |r| ==> r[i] != r[j]
  {
    if |xs| == 0 then []
    else
      var init := FirstOccurrences(xs[..|xs| - 1]);
      assert forall x :: x in xs <==> x in xs[..|xs| - 1] || x == xs[|xs| - 1] by {
        assert xs == xs[..|xs| - 1] + [xs[|xs| - 1]];
      }
      if xs[|xs| - 1] in init then init else init + [xs[|xs| - 1]]
  }

  function OfSubject(s: string): TrendRow -> bool
  {
    (r: TrendRow) => r.subject == s
  }

  lemma GroupStep(rows: seq<TrendRow>, i: nat)
    requires i < |rows|
    ensures rows[..i + 1] == rows[..i] + [rows[i]]
    ensures Subjects(rows[..i + 1]) == Subjects(rows[..i]) + [rows[i].subject]
    ensures FirstOccurrences(Subjects(rows[..i + 1]))
              == if rows[i].subject in FirstOccurrences(Subjects(rows[..i])) then FirstOccurrences(Subjects(rows[..i]))
                 else FirstOccurrences(Subjects(rows[..i])) + [rows[i].subject]
  {
    assert rows[..i + 1] == rows[..i] + [rows[i]];
    var ss := Subjects(rows[..i + 1]);
    assert ss == Subjects(rows[..i]) + [rows[i].subject];
    assert ss[..|ss| - 1] == Subjects(rows[..i]);
  }

  lemma FilterStep(rows: seq<TrendRow>, r: TrendRow, s: string)
    ensures Filter(rows + [r], OfSubject(s)) == Filter(rows, OfSubject(s)) + (if r.subject == s then [r] else [])
  {
    FilterSnoc(rows, r, OfSubject(s));
  }

  /** The grouping after the first `i` rows: first-seen subject order, and each subject's rows. */
  ghost predicate GroupedUpTo(rows: seq<TrendRow>, i: nat, order: seq<string>, groups: map<string, seq<TrendRow>>)
    requires i <= |rows|
  {
    && order == FirstOccurrences(Subjects(rows[..i]))
    && (forall s :: s in groups <==> s in order)
    && (forall s :: s in groups ==> groups[s] == Filter(rows[..i], OfSubject(s)))
  }

  /** The first-seen order after row `i`: the subject is appended exactly when it is new. */
  lemma OrderStep(rows: seq<TrendRow>, i: nat, order: seq<string>)
    requires i < |rows| && order == FirstOccurrences(Subjects(rows[..i]))
    ensures FirstOccurrences(Subjects(rows[..i + 1]))
              == if rows[i].subject in order then order else order + [rows[i].subject]
  {
    GroupStep(rows, i);
  }

  /** Each group is the filter of the longer prefix once row `i` joins its subject's group. */
  lemma GroupsStep(rows: seq<TrendRow>, i: nat, groups: map<string, seq<TrendRow>>, group: seq<TrendRow>, next: map<string, seq<TrendRow>>)
    requires i < |rows|
    requires forall s :: s in groups ==> groups[s] == Filter(rows[..i], OfSubject(s))
    requires group == Filter(rows[..i], OfSubject(rows[i].subject))
    requires next == groups[rows[i].subject := group + [rows[i]]]
    ensures forall s :: s in next ==> next[s] == Filter(rows[..i + 1], OfSubject(s))
  {
    PrefixSnoc(rows, i);
    forall s | s in next
      ensures next[s] == Filter(rows[..i + 1], OfSubject(s))
    {
      FilterStep(rows[..i], rows[i], s);
    }
  }

  /** Row `i` of a subject not seen before opens that subject's group with the row alone. */
  lemma GroupedNewSubject(rows: seq<TrendRow>, i: nat, order: seq<string>, groups: map<string, seq<TrendRow>>)
    requires i < |rows| && GroupedUpTo(rows, i, order, groups) && rows[i].subject !in groups
    ensures GroupedUpTo(rows, i + 1, order + [rows[i].subject], groups[rows[i].subject := [rows[i]]])
  {
    var r := rows[i];
    OrderStep(rows, i, order);
    FilterNone(rows[..i], r.subject);
    assert [] + [r] == [r];
    GroupsStep(rows, i, groups, [], groups[r.subject := [r]]);
  }

  /** Row `i` of a subject already seen joins the end of that subject's group. */
  lemma GroupedKnownSubject(rows: seq<TrendRow>, i: nat, order: seq<string>, groups: map<string, seq<TrendRow>>)
    requires i < |rows| && GroupedUpTo(rows, i, order, groups) && rows[i].subject in groups
    ensures GroupedUpTo(rows, i + 1, order, groups[rows[i].subject := groups[rows[i].subject] + [rows[i]]])
  {
    var r := rows[i];
    OrderStep(rows, i, order);
    GroupsStep(rows, i, groups, groups[r.subject], groups[r.subject := groups[r.subject] + [r]]);
  }

  /**
   * The grouping loop of query_trend: the subjects in order of first
   * appearance, and for each the rows of that subject in query order.
   */
  method GroupBySubject(rows: seq<TrendRow>) returns (order: seq<string>, groups: map<string, seq<TrendRow>>)
    ensures order == FirstOccurrences(Subjects(rows))
    ensures forall s :: s in groups <==> s in order
    ensures forall s :: s in groups ==> groups[s] == Filter(rows, OfSubject(s))
  {
    order, groups := [], map[];
    for i := 0 to |rows|
      invariant GroupedUpTo(rows, i, order, groups)
    {
      var r := rows[i];
      if r.subject !in groups {
        GroupedNewSubject(rows, i, order, groups);
        order := order + [r.subject];
        groups := groups[r.subject := [r]];
      } else {
        GroupedKnownSubject(rows, i, order, groups);
        groups := groups[r.subject := groups[r.subject] + [r]];
      }
    }
    assert rows[..|rows|] == rows;
  }

  lemma FilterNone(rows: seq<TrendRow>, s: string)
    requires s !in Subjects(rows)
    ensures Filter(rows, OfSubject(s)) == []
  {
    FilterMembers(rows, OfSubject(s));
  }
}
