// The client's CSV side of the score upload: reading a score file into
// import records, the nullable-number rule for each score field, and the
// template file the client offers for download.

module ScoreApi {
  import opened Common

  /** One parsed CSV line: the student number and seven optional scores. */
  datatype ScoreImportDto = ScoreImportDto(studentNumber: string,
                                           chinese: Option<real>, math: Option<real>, english: Option<real>,
                                           physics: Option<real>, chemistry: Option<real>, biology: Option<real>,
                                           politics: Option<real>)

  // ---------------------------------------------------------------------------
  // Lines of a text file
  // ---------------------------------------------------------------------------

  /** `File.ReadAllLines` on text broken by '\n': a final line break does not open an empty line. */
  function ReadAllLines(text: string): seq<string>
  {
    var parts := Split(text, '\n');
    if parts[|parts| - 1] == "" then parts[..|parts| - 1] else parts
  }

  /** The text a `StringBuilder` holds after `AppendLine` of each line in turn. */
  function AppendLines(lines: seq<string>): string
  {
    if |lines| == 0 then "" else lines[0] + "\n" + AppendLines(lines[1..])
  }

  lemma {:induction false} AppendLinesJoin(lines: seq<string>)
    ensures AppendLines(lines) == Join(lines + [""], '\n')
  {
    if |lines| > 0 {
      AppendLinesJoin(lines[1..]);
      assert (lines + [""])[1..] == lines[1..] + [""];
    }
  }

  /** Reading back text written line by line gives the same lines. */
  lemma AppendLinesReadBack(lines: seq<string>)
    requires forall i :: 0 <= i < |lines| ==> '\n' !in lines[i]
    ensures ReadAllLines(AppendLines(lines)) == lines
  {
    AppendLinesJoin(lines);
    JoinSplit(lines + [""], '\n');
    assert (lines + [""])[..|lines|] == lines;
  }

  // ---------------------------------------------------------------------------
  // Fields
  // ---------------------------------------------------------------------------

  /**
   * `ParseNullableFloat`: null for blank text, otherwise the number
   * `float.TryParse` reads, or null when it reads none.
   */
  function ParseNullableFloat(value: string): (r: Option<real>)
    ensures IsNullOrWhiteSpace(value) ==> r.None?
  {
    if IsNullOrWhiteSpace(value) then None else ParseSignedDecimal(TrimNet(value))
  }

  /** A whole number written in decimal reads back as itself; an empty field is null. */
  lemma ParseNullableFloatReadsBack(n: nat)
    ensures ParseNullableFloat(NatToString(n)) == Some(n as real)
    ensures ParseNullableFloat("") == None
  {
    var s := NatToString(n);
    assert IsAsciiDigit(s[0]) && IsAsciiDigit(s[|s| - 1]);
    assert !IsNullOrWhiteSpace(s) by {
      assert !IsNetWhiteSpace(s[0]);
    }
    TrimUnchanged(s);
    DecimalOfNat(n);
  }

  /** The record read from the fields of a line: field 0 is the student number, fields 1 to 7 the scores. */
  function RecordOf(vs: seq<string>): ScoreImportDto
    requires |vs| >= 8
  {
    ScoreImportDto(vs[0], ParseNullableFloat(vs[1]), ParseNullableFloat(vs[2]), ParseNullableFloat(vs[3]),
                   ParseNullableFloat(vs[4]), ParseNullableFloat(vs[5]), ParseNullableFloat(vs[6]),
                   ParseNullableFloat(vs[7]))
  }

  /**
   * One line of the file (after the header): trimmed, split on ',', and
   * kept only when it is not empty and has at least eight fields; further
   * fields are ignored.
   */
  function ParseLine(line: string): Option<ScoreImportDto>
  {
    var t := TrimNet(line);
    if t == "" then None
    else
      var vs := Split(t, ',');
      if |vs| < 8 then None else Some(RecordOf(vs))
  }

  /** The records of the given lines, in order, from the lines that parse. */
  function ParsedLines(lines: seq<string>): (rs: seq<ScoreImportDto>)
    ensures |rs| <= |lines|
  {
    if |lines| == 0 then []
    else
      var last := ParseLine(lines[|lines| - 1]);
      ParsedLines(lines[..|lines| - 1]) + (if last.Some? then [last.value] else [])
  }

  lemma {:induction false} ParsedLinesFilterMap(lines: seq<string>)
    ensures ParsedLines(lines) == FilterMap(lines, ParseLine)
  {
    if |lines| > 0 {
      ParsedLinesFilterMap(lines[..|lines| - 1]);
    }
  }

  /** The records of a whole file: line 0 is the header and is skipped. */
  function ParseCsv(lines: seq<string>): seq<ScoreImportDto>
  {
    if |lines| == 0 then [] else ParsedLines(lines[1..])
  }

  /** Each record comes from a line after the header, and each such line that parses gives a record. */
  lemma ParsedLinesMembers(lines: seq<string>)
    ensures forall r :: r in ParsedLines(lines) <==> exists i :: 0 <= i < |lines| && ParseLine(lines[i]) == Some(r)
  {
    ParsedLinesFilterMap(lines);
    FilterMapMembers(lines, ParseLine);
  }

  /** At most one record per line after the header. */
  lemma ParseCsvCount(lines: seq<string>)
    ensures |lines| > 0 ==> |ParseCsv(lines)| <= |lines| - 1
    ensures |lines| <= 1 ==> ParseCsv(lines) == []
  {
  }

  /** One more line adds its record, if it has one, at the end. */
  lemma ParsedLinesSnoc(lines: seq<string>, line: string, r: Option<ScoreImportDto>)
    requires ParseLine(line) == r
    ensures ParsedLines(lines + [line]) == ParsedLines(lines) + (if r.Some? then [r.value] else [])
  {
    assert (lines + [line])[..|lines|] == lines;
  }

  /** ParseCsvFile on the text of a file: the loop over the lines after the header. */
  method ParseCsvFile(text: string) returns (scores: seq<ScoreImportDto>)
    ensures scores == ParseCsv(ReadAllLines(text))
  {
    scores := ParseCsvLines(ReadAllLines(text));
  }

  /** The loop of ParseCsvFile over the lines of the file, header first. */
  method ParseCsvLines(lines: seq<string>) returns (scores: seq<ScoreImportDto>)
    ensures scores == ParseCsv(lines)
  {
    scores := [];
    if |lines| == 0 {
      return;
    }
    var i := 1;
    while i < |lines|
      invariant 1 <= i <= |lines|
      invariant scores == ParsedLines(lines[1..i])
    {
      var parsed := ParseLine(lines[i]);
      SliceSnoc(lines, 1, i);
      ParsedLinesSnoc(lines[1..i], lines[i], parsed);
      if parsed.Some? {
        scores := scores + [parsed.value];
      }
      i := i + 1;
    }
    assert lines[1..i] == lines[1..];
  }

  // ---------------------------------------------------------------------------
  // The template
  // ---------------------------------------------------------------------------

  const TemplateColumns: seq<string> := ["StudentNumber", "ChineseScore", "MathScore", "EnglishScore",
                                          "PhysicsScore", "ChemistryScore", "BiologyScore", "PoliticsScore"]
  const TemplateHeader: string := Join(TemplateColumns, ',')
  // The three sample rows, kept field by field: each row's text is its fields joined by ','.
  const Row1Fields: seq<string> := ["202401001", "130", "142", "135", "88", "92", "85", ""]
  const TemplateRow1: string := Join(Row1Fields, ',')
  const Row2Fields: seq<string> := ["202401002", "125", "138", "128", "92", "85", "90", ""]
  const TemplateRow2: string := Join(Row2Fields, ',')
  const Row3Fields: seq<string> := ["202401003", "135", "145", "140", "95", "90", "88", ""]
  const TemplateRow3: string := Join(Row3Fields, ',')

  /** GenerateCsvTemplate's content: the header and three sample rows, one per line. */
  function TemplateText(): string
  {
    AppendLines([TemplateHeader, TemplateRow1, TemplateRow2, TemplateRow3])
  }

  /** The expected record of a template row: six scores and an empty politics field. */
  function SampleRecord(number: string, a: nat, b: nat, c: nat, d: nat, e: nat, f: nat): ScoreImportDto
  {
    ScoreImportDto(number, Some(a as real), Some(b as real), Some(c as real), Some(d as real), Some(e as real),
                   Some(f as real), None)
  }

  /**
   * A line written as fields joined by ',' whose first character and last
   * field keep trimming from changing it reads back into those fields.
   */
  lemma ParseJoinedLine(fields: seq<string>)
    requires |fields| >= 8 && fields[|fields| - 1] == ""
    requires |fields[0]| > 0 && !IsNetWhiteSpace(fields[0][0])
    requires forall i :: 0 <= i < |fields| ==> ',' !in fields[i]
    ensures ParseLine(Join(fields, ',')) == Some(RecordOf(fields))
  {
    var line := Join(fields, ',');
    JoinSplit(fields, ',');
    JoinEndsWith(fields, ',');
    JoinStartsWith(fields, ',');
    TrimUnchanged(line);
  }

  /** A template-shaped row: a number, six whole scores and an empty last field. */
  lemma SampleRowParses(number: string, a: nat, b: nat, c: nat, d: nat, e: nat, f: nat)
    requires |number| > 0 && !IsNetWhiteSpace(number[0]) && ',' !in number
    ensures ParseLine(Join([number, NatToString(a), NatToString(b), NatToString(c), NatToString(d),
                            NatToString(e), NatToString(f), ""], ',')) ==
            Some(SampleRecord(number, a, b, c, d, e, f))
  {
    var fields := [number, NatToString(a), NatToString(b), NatToString(c), NatToString(d), NatToString(e), NatToString(f), ""];
    forall i | 0 <= i < |fields|
      ensures ',' !in fields[i]
    {
      if 1 <= i < 7 {
        DigitsHoldNoComma(fields[i]);
      }
    }
    ParseJoinedLine(fields);
    ParseNullableFloatReadsBack(a);
    ParseNullableFloatReadsBack(b);
    ParseNullableFloatReadsBack(c);
    ParseNullableFloatReadsBack(d);
    ParseNullableFloatReadsBack(e);
    ParseNullableFloatReadsBack(f);
  }

  /** The downloaded template, read back by ParseCsvFile, gives its three sample students. */
  lemma TemplateReadsBack()
    ensures ParseCsv(ReadAllLines(TemplateText())) ==
            [SampleRecord("202401001", 130, 142, 135, 88, 92, 85),
             SampleRecord("202401002", 125, 138, 128, 92, 85, 90),
             SampleRecord("202401003", 135, 145, 140, 95, 90, 88)]
  {
    var lines := [TemplateHeader, TemplateRow1, TemplateRow2, TemplateRow3];
    TemplateLinesUnbroken();
    AppendLinesReadBack(lines);
    TemplateRowsParse();
    assert lines[1..] == [TemplateRow1, TemplateRow2, TemplateRow3];
  }

  lemma TemplateLinesUnbroken()
    ensures forall i :: 0 <= i < 4 ==> '\n' !in [TemplateHeader, TemplateRow1, TemplateRow2, TemplateRow3][i]
  {
    HeaderUnbroken();
    Row1Unbroken();
    Row2Unbroken();
    Row3Unbroken();
    FourAvoid(TemplateHeader, TemplateRow1, TemplateRow2, TemplateRow3, '\n');
  }

  lemma FourAvoid(a: string, b: string, c: string, d: string, x: char)
    requires x !in a && x !in b && x !in c && x !in d
    ensures forall i :: 0 <= i < 4 ==> x !in [a, b, c, d][i]
  {
  }

  lemma Row1Unbroken()
    ensures '\n' !in TemplateRow1
  {
    JoinAvoids(Row1Fields, ',', '\n');
  }

  lemma Row2Unbroken()
    ensures '\n' !in TemplateRow2
  {
    JoinAvoids(Row2Fields, ',', '\n');
  }

  lemma Row3Unbroken()
    ensures '\n' !in TemplateRow3
  {
    JoinAvoids(Row3Fields, ',', '\n');
  }

  lemma HeaderUnbroken()
    ensures '\n' !in TemplateHeader
  {
    JoinAvoids(TemplateColumns, ',', '\n');
  }

  lemma TemplateRowsParse()
    ensures ParsedLines([TemplateRow1, TemplateRow2, TemplateRow3]) ==
            [SampleRecord("202401001", 130, 142, 135, 88, 92, 85),
             SampleRecord("202401002", 125, 138, 128, 92, 85, 90),
             SampleRecord("202401003", 135, 145, 140, 95, 90, 88)]
  {
    TemplateRow1Parses();
    TemplateRow2Parses();
    TemplateRow3Parses();
    ParsedLinesFilterMap([TemplateRow1, TemplateRow2, TemplateRow3]);
    FilterMapThree(TemplateRow1, TemplateRow2, TemplateRow3, ParseLine,
                   SampleRecord("202401001", 130, 142, 135, 88, 92, 85),
                   SampleRecord("202401002", 125, 138, 128, 92, 85, 90),
                   SampleRecord("202401003", 135, 145, 140, 95, 90, 88));
  }

  lemma TemplateRow1Parses()
    ensures ParseLine(TemplateRow1) == Some(SampleRecord("202401001", 130, 142, 135, 88, 92, 85))
  {
    TemplateRow1Fields();
    SampleRowParses("202401001", 130, 142, 135, 88, 92, 85);
  }

  lemma TemplateRow1Fields()
    ensures Row1Fields == ["202401001", NatToString(130), NatToString(142), NatToString(135), NatToString(88), NatToString(92), NatToString(85), ""]
  {
    TemplateRow1Scores();
  }

  lemma TemplateRow1Scores()
    ensures NatToString(130) == "130" && NatToString(142) == "142" && NatToString(135) == "135" && NatToString(88) == "88" && NatToString(92) == "92" && NatToString(85) == "85"
  {
    assert NatToString(130) == "130";
    assert NatToString(142) == "142";
    assert NatToString(135) == "135";
    assert NatToString(88) == "88";
    assert NatToString(92) == "92";
    assert NatToString(85) == "85";
  }

  lemma TemplateRow2Parses()
    ensures ParseLine(TemplateRow2) == Some(SampleRecord("202401002", 125, 138, 128, 92, 85, 90))
  {
    TemplateRow2Fields();
    SampleRowParses("202401002", 125, 138, 128, 92, 85, 90);
  }

  lemma TemplateRow2Fields()
    ensures Row2Fields == ["202401002", NatToString(125), NatToString(138), NatToString(128), NatToString(92), NatToString(85), NatToString(90), ""]
  {
    TemplateRow2Scores();
  }

  lemma TemplateRow2Scores()
    ensures NatToString(125) == "125" && NatToString(138) == "138" && NatToString(128) == "128" && NatToString(92) == "92" && NatToString(85) == "85" && NatToString(90) == "90"
  {
    assert NatToString(125) == "125";
    assert NatToString(138) == "138";
    assert NatToString(128) == "128";
    assert NatToString(92) == "92";
    assert NatToString(85) == "85";
    assert NatToString(90) == "90";
  }

  lemma TemplateRow3Parses()
    ensures ParseLine(TemplateRow3) == Some(SampleRecord("202401003", 135, 145, 140, 95, 90, 88))
  {
    TemplateRow3Fields();
    SampleRowParses("202401003", 135, 145, 140, 95, 90, 88);
  }

  lemma TemplateRow3Fields()
    ensures Row3Fields == ["202401003", NatToString(135), NatToString(145), NatToString(140), NatToString(95), NatToString(90), NatToString(88), ""]
  {
    TemplateRow3Scores();
  }

  lemma TemplateRow3Scores()
    ensures NatToString(135) == "135" && NatToString(145) == "145" && NatToString(140) == "140" && NatToString(95) == "95" && NatToString(90) == "90" && NatToString(88) == "88"
  {
    assert NatToString(135) == "135";
    assert NatToString(145) == "145";
    assert NatToString(140) == "140";
    assert NatToString(95) == "95";
    assert NatToString(90) == "90";
    assert NatToString(88) == "88";
  }

  lemma {:induction false} JoinAvoids(parts: seq<string>, c: char, x: char)
    requires |parts| >= 1 && x != c
    requires forall i :: 0 <= i < |parts| ==> x !in parts[i]
    ensures x !in Join(parts, c)
  {
    if |parts| > 1 {
      JoinAvoids(parts[1..], c, x);
    }
  }

  lemma DigitsHoldNoComma(s: string)
    requires IsDigitString(s)
    ensures ',' !in s
  {
  }

  lemma {:induction false} JoinStartsWith(parts: seq<string>, c: char)
    requires |parts| >= 1 && |parts[0]| > 0
    ensures |Join(parts, c)| > 0 && Join(parts, c)[0] == parts[0][0]
  {
  }

  lemma {:induction false} JoinEndsWith(parts: seq<string>, c: char)
    requires |parts| >= 2 && parts[|parts| - 1] == ""
    ensures |Join(parts, c)| > 0 && Join(parts, c)[|Join(parts, c)| - 1] == c
    decreases |parts|
  {
    if |parts| > 2 {
      JoinEndsWith(parts[1..], c);
    }
  }
}
