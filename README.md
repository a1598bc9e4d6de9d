# StudentScoreProject core, modelled in Dafny

StudentScoreProject is a school score-management system in two parts.

- **Server tools (Python).** Importers read exam workbooks into an SQLite score database:
  - the version-2 Excel importer for students and scores;
  - the time-limited practice test ("限时练") importer.

  Report tools then analyse ranks over time:
  - the time-limit progress query;
  - the class rank summary;
  - the score-trend visualiser.

  An ASP.NET `ScoreService` serves each student's six subject scores with their mean.
- **Unity client (C#).**
  - The score upload's CSV reader and template.
  - Two login controllers, and PlayerPrefs persistence.
  - String, list, math, event and pooling utilities.
  - The physics experiments: belt conveyor, belt transmission, physics materials, data logger, chart drawer, energy calculator, the experiment controllers and their life cycle.
  - The 3D game controller.
  - The base classes with their once-only initialise/dispose protocol, and the lifecycle registry.

This project models that logic and proves properties of the model, apart from the Unity engine, the database, the spreadsheets, the plots and the network.

How sources map to Dafny:
- Database tables are `map`s keyed as the SQL keys them.
- Query results and worksheet rows are input sequences.
- The clock, random choices and engine readings are parameters.
- Floating-point numbers are `real`.
- Pure rules are functions with lemmas.
- Loops are methods with loop invariants, proved against specification functions.
- Unity components whose fields change become classes. Each method's `modifies` clause names what it may change, and its `ensures` say what those fields become.
- The hooks a subclass overrides (OnInitialize, OnShow, ...) are recorded as run counts.

`common.dfy` holds the shared pieces:
- Option and Result;
- Python- and .NET-style digit parsing and whitespace trimming;
- sums and means;
- Unity's `Mathf.Clamp`.

`ordering.dfy` is Python's stable `sort(key=..., reverse=True)`. `sheet.dfy` holds the worksheet cell values the Python importers receive.

## Model

| member | source | states |
|---|---|---|
| TimeLimitQuery.ChangeLabelRoundTrip | ScoreManagementServer/ScoreManagementServer/ScoreManagementServer/time_limit_exam_query.py:321-328 | every change text reads back as the rank difference it was made from, and the first test's "-" reads as no difference, so distinct differences get distinct labels |
| TimeLimitQuery.RiseLabelReadsBack | ScoreManagementServer/ScoreManagementServer/ScoreManagementServer/time_limit_exam_query.py:321-322 | for a positive difference d the text "↑+d" reads back as d |
| TimeLimitQuery.FallLabelReadsBack | ScoreManagementServer/ScoreManagementServer/ScoreManagementServer/time_limit_exam_query.py:323-324 | for a negative difference d the text "↓\|d\|" reads back as d |
| TimeLimitQuery.Changes | ScoreManagementServer/ScoreManagementServer/ScoreManagementServer/time_limit_exam_query.py:310-337 | exactly one change entry per fetched score |
| TimeLimitQuery.ProgressStep | ScoreManagementServer/ScoreManagementServer/ScoreManagementServer/time_limit_exam_query.py:316-329 | taking score i appends its entry and adds previous rank minus current rank (999 for a missing rank) to the total, which is reset to 0 at the first score, and the total stays equal to the first rank minus the rank of score i |
| TimeLimitQuery.StudentProgress | ScoreManagementServer/ScoreManagementServer/ScoreManagementServer/time_limit_exam_query.py:307-344 | the entry keeps the student's name and number, has one change per fetched score (999 for a missing rank, "-" first, then labelled by the sign of previous minus current), and its total progress equals the first grade rank minus the last |
| TimeLimitQuery.ExamIds | ScoreManagementServer/ScoreManagementServer/ScoreManagementServer/time_limit_exam_query.py:283 | the ids of the selected tests, in order |
| TimeLimitQuery.FetchScores | ScoreManagementServer/ScoreManagementServer/ScoreManagementServer/time_limit_exam_query.py:293-301 | every fetched row belongs to the student, comes from the join and is for one of the selected tests |
| TimeLimitQuery.CollectLeavesOutShortHistories | ScoreManagementServer/ScoreManagementServer/ScoreManagementServer/time_limit_exam_query.py:288-304 | at most one entry per student, and students with fewer than two scores are left out, so every entry has at least two changes |
| TimeLimitQuery.SplitProgress | ScoreManagementServer/ScoreManagementServer/ScoreManagementServer/time_limit_exam_query.py:350-358 | recent_progress is exactly the entries with total > 0 and no_change those with total = 0, both in the input order, so both stay sorted when the input is |
| TimeLimitQuery.ClassTimeLimitProgress | ScoreManagementServer/ScoreManagementServer/ScoreManagementServer/time_limit_exam_query.py:259-360 | three empty lists without students or with fewer than two tests; otherwise only the first exam_count tests are used, detailed_progress is the stable descending sort of the collected entries, every entry has at least two scores, and the two sub-lists are its filters by total > 0 and total = 0 |
| TimeLimitQuery.StudentWindow | ScoreManagementServer/ScoreManagementServer/ScoreManagementServer/time_limit_exam_query.py:223-224 | '1', '2' and '3' give 3, 5 and 10 tests and every other choice means all tests |
| TimeLimitQuery.WindowText | ScoreManagementServer/ScoreManagementServer/ScoreManagementServer/time_limit_exam_query.py:404-405 | the text read as a number is a digit string: the answer itself when it is all digits, "3" otherwise |
| TimeLimitQuery.ClassWindow | ScoreManagementServer/ScoreManagementServer/ScoreManagementServer/time_limit_exam_query.py:403-406 | the class window lies in [2, 5] |
| TimeLimitQuery.ClassWindowValue | ScoreManagementServer/ScoreManagementServer/ScoreManagementServer/time_limit_exam_query.py:403-406 | an empty or non-digit answer gives 3 and a digit answer gives its value clamped to [2, 5] |
| ClassRank.SnocScores | ScoreManagementServer/ScoreManagementServer/class_rank_visualizer.py:136-143 | one more row adds its id to the key order only when the id is new, and joins only its own student's rows |
| ClassRank.IdsAreTheStudents | ScoreManagementServer/ScoreManagementServer/class_rank_visualizer.py:135-143 | the keys of students_data are distinct, every row's id is a key, and an id is a key exactly when the student has a row |
| ClassRank.RecordsOfBelong | ScoreManagementServer/ScoreManagementServer/class_rank_visualizer.py:143 | every row of a student's group is an input row carrying that student's id |
| ClassRank.CollectedNewStudent | ScoreManagementServer/ScoreManagementServer/class_rank_visualizer.py:137-143 | a row of an unseen student starts that student's group with the row's name and number and the row itself, and appends the id to the key order |
| ClassRank.CollectedKnownStudent | ScoreManagementServer/ScoreManagementServer/class_rank_visualizer.py:143 | a row of a student already seen is appended to the end of that student's records and leaves the key order alone |
| ClassRank.GroupByStudent | ScoreManagementServer/ScoreManagementServer/class_rank_visualizer.py:135-143 | the groups, in key order, are exactly one group per distinct id in first-seen order, each with its first row's name and number and all its rows in arrival order |
| ClassRank.CollectedAll | ScoreManagementServer/ScoreManagementServer/class_rank_visualizer.py:135-143 | after the last row the map read in key order is exactly the grouping |
| ClassRank.TotalAtUpdate | ScoreManagementServer/ScoreManagementServer/class_rank_visualizer.py:158 | raising one count of the distribution raises the sum of its values by the same amount |
| ClassRank.HistogramKeys | ScoreManagementServer/ScoreManagementServer/class_rank_visualizer.py:154-158 | the distribution has one key per distinct record count |
| ClassRank.DistinctInOrderDistinct | ScoreManagementServer/ScoreManagementServer/class_rank_visualizer.py:154-158 | the distribution's keys are listed once each |
| ClassRank.HistogramTotal | ScoreManagementServer/ScoreManagementServer/class_rank_visualizer.py:154-158 | the values of the distribution add up to the number of students counted |
| ClassRank.RecordCounts | ScoreManagementServer/ScoreManagementServer/class_rank_visualizer.py:157 | one count per group, equal to the group's number of records |
| ClassRank.CountDistribution | ScoreManagementServer/ScoreManagementServer/class_rank_visualizer.py:154-158 | the counting loop produces exactly the distribution of the record counts |
| ClassRank.Chronological | ScoreManagementServer/ScoreManagementServer/class_rank_visualizer.py:156 | the records sorted by date are a permutation of the group's records in non-decreasing date order |
| ClassRank.ClassifiedOnce | ScoreManagementServer/ScoreManagementServer/class_rank_visualizer.py:166-184 | every student with at least two records lands in exactly one of the three lists, and every recorded move is positive |
| ClassRank.ClassifiedSnoc | ScoreManagementServer/ScoreManagementServer/class_rank_visualizer.py:169-184 | each student adds at most one entry, at the end of the list its sign of first minus last rank (999 for a missing rank) picks, a decline carrying the size of its fall |
| ClassRank.Classify | ScoreManagementServer/ScoreManagementServer/class_rank_visualizer.py:166-184 | the classification loop produces exactly the three lists |
| ClassRank.SignificantDeclines | ScoreManagementServer/ScoreManagementServer/class_rank_visualizer.py:205 | the significant declines are exactly the declines whose size is at least the threshold, in the declines' order |
| ClassRank.MeanChange | ScoreManagementServer/ScoreManagementServer/class_rank_visualizer.py:194-225 | a mean exists exactly when the list is not empty |
| ClassRank.MeanChangeAtLeastOne | ScoreManagementServer/ScoreManagementServer/class_rank_visualizer.py:175-182 | the mean of positive moves is at least one place |
| ClassRank.ClassRankSummary | ScoreManagementServer/ScoreManagementServer/class_rank_visualizer.py:128-225 | nothing for no rows; otherwise the grouping, the distribution, the improvements and declines as permutations of the classified moves sorted largest first, the no-change list, the significant declines, total_students and valid_students, with valid_students at most total_students |
| ClassRank.DistributionCountsEveryStudent | ScoreManagementServer/ScoreManagementServer/class_rank_visualizer.py:154-158 | every grouped student is counted once in the distribution |
| ClassRank.RankTypeChoice | ScoreManagementServer/ScoreManagementServer/class_rank_visualizer.py:293-299 | the class rank is chosen exactly when the stripped answer is all digits and not "1" |
| ClassRank.DeclineThreshold | ScoreManagementServer/ScoreManagementServer/class_rank_visualizer.py:353-357 | the threshold is never negative and is 5 unless the stripped answer is all digits |
| ClassRank.DeclineThresholdReadsNumber | ScoreManagementServer/ScoreManagementServer/class_rank_visualizer.py:353-355 | typing a number gives that number as the threshold |
| ScoreTrend.SignedTextRoundTrip | ScoreManagementServer/ScoreManagementServer/score_trend_visualizer.py:193 | the change text, "+d" for a rise and "d" otherwise, reads back as the change |
| ScoreTrend.FirstMissingRank | ScoreManagementServer/ScoreManagementServer/score_trend_visualizer.py:180-181 | the first row without a grade rank: every earlier row has one and that row has none |
| ScoreTrend.TrendSummary | ScoreManagementServer/ScoreManagementServer/score_trend_visualizer.py:161-197 | fewer than two rows give only the notice; with two or more, the first missing grade rank a comparison reaches raises (at row max(1, k)); otherwise one line per row |
| ScoreTrend.TrendLinesFollowRanks | ScoreManagementServer/ScoreManagementServer/score_trend_visualizer.py:179-193 | each later line's trend is the sign of previous rank minus current rank, rising exactly when that difference is positive, and its change text reads back as the difference |
| ScoreTrend.MarkerLabelKeepsSign | ScoreManagementServer/ScoreManagementServer/score_trend_visualizer.py:125-133 | the chart keeps the minus sign of a fall after the arrow ("↓-3"), a different convention from the "↓3" of the text reports |
| ScoreTrend.MarkerLabelReadsBack | ScoreManagementServer/ScoreManagementServer/score_trend_visualizer.py:125-133 | the arrow is ↑, ↓ or → by the sign of the change, and the text after it reads back as the signed change |
| ScoreTrend.TrendMarkers | ScoreManagementServer/ScoreManagementServer/score_trend_visualizer.py:95-133 | one slot per test, none for the first; a marker exactly where both ranks drawn (a missing rank drawn at 0) are above 0, labelled "↑+d", "↓d" (d negative) or "→0" |
| ScoreTrend.TrendMarkersReadBack | ScoreManagementServer/ScoreManagementServer/score_trend_visualizer.py:122-133 | every marker's arrow is the sign of previous drawn rank minus current drawn rank, and the text after the arrow reads back as that difference, minus sign included |
| ScoreTrend.InsertAscending | ScoreManagementServer/ScoreManagementServer/score_trend_visualizer.py:337 | inserting a date into a strictly ascending list keeps it strictly ascending and adds exactly that date |
| ScoreTrend.SortedSet | ScoreManagementServer/ScoreManagementServer/score_trend_visualizer.py:337 | sorted(set(dates)): strictly ascending and holding exactly the input dates |
| ScoreTrend.ExamDays | ScoreManagementServer/ScoreManagementServer/score_trend_visualizer.py:337 | the matrix columns are the distinct test dates, oldest first, each coming from some row and every row's date among them |
| ScoreTrend.FirstSubjectsAreDistinct | ScoreManagementServer/ScoreManagementServer/score_trend_visualizer.py:340-344 | subject_info has each subject once, and every row's subject is in it |
| ScoreTrend.SubjectOrder | ScoreManagementServer/ScoreManagementServer/score_trend_visualizer.py:345 | the subjects sorted by SortOrder are a permutation of the first-seen subjects, in non-decreasing SortOrder |
| ScoreTrend.CollectSubjects | ScoreManagementServer/ScoreManagementServer/score_trend_visualizer.py:340-344 | the subject_info loop keeps each subject's first SortOrder, in order of first appearance |
| ScoreTrend.FirstMatch | ScoreManagementServer/ScoreManagementServer/score_trend_visualizer.py:353-357 | the scan stops at the first row of that date and subject, and no earlier row matches |
| ScoreTrend.RankRow | ScoreManagementServer/ScoreManagementServer/score_trend_visualizer.py:351-359 | one cell per test date, each the cell rank of that date |
| ScoreTrend.FindRank | ScoreManagementServer/ScoreManagementServer/score_trend_visualizer.py:352-359 | the innermost loop yields the first matching row's rank, 999 when that rank is missing or 0, and 999 when no row matches |
| ScoreTrend.BuildRankRow | ScoreManagementServer/ScoreManagementServer/score_trend_visualizer.py:350-359 | one subject's matrix row is the cell ranks of the test dates in order |
| ScoreTrend.BuildRankMatrix | ScoreManagementServer/ScoreManagementServer/score_trend_visualizer.py:337-359 | the columns are the distinct dates oldest first, the rows the subjects in SortOrder order, and each row the subject's cell ranks |
| ScoreTrend.RankMatrixCells | ScoreManagementServer/ScoreManagementServer/score_trend_visualizer.py:337-359 | a cell other than 999 is the rank of a matching row, a cell with no matching row is 999, and a subject has a row exactly when some score names it |
| ScoreTrend.SubjectOrderNames | ScoreManagementServer/ScoreManagementServer/score_trend_visualizer.py:345 | sorting by SortOrder keeps the set of subject names |
| ScoreTrend.CellRankFound | ScoreManagementServer/ScoreManagementServer/score_trend_visualizer.py:353-359 | a cell other than 999 holds the rank of a matching row, and with no matching row the cell is 999 |
| ScoreTrend.FirstSubjectsCome | ScoreManagementServer/ScoreManagementServer/score_trend_visualizer.py:340-344 | every subject listed names some score row |
| ScoreTrend.ExamNames | ScoreManagementServer/ScoreManagementServer/score_trend_visualizer.py:440 | the keys are exactly the rows' test dates, and each date maps to the test name on the last row with that date |
| ScoreTrend.RankChangeSummary | ScoreManagementServer/ScoreManagementServer/score_trend_visualizer.py:557-565 | no summary exactly when there are no ranks or all of them are 999 |
| ScoreTrend.ChangeLinesComeFromRanks | ScoreManagementServer/ScoreManagementServer/score_trend_visualizer.py:563-573 | every printed line is the line of a column whose rank is not 999 |
| ScoreTrend.RanksHaveChangeLines | ScoreManagementServer/ScoreManagementServer/score_trend_visualizer.py:563-573 | every column whose rank is not 999 gets its line |
| ScoreTrend.ChangeLineMeaning | ScoreManagementServer/ScoreManagementServer/score_trend_visualizer.py:573-593 | a line carries its column's rank and date, has no change exactly for column 0 or after a 999, and otherwise the change is previous rank minus rank |
| TimeLimitImporter.MatchStartFindsMatch | ScoreManagementServer/ScoreManagementServer/ScoreManagementServer/time_limit_exam_importer.py:28 | the leftmost search finds a start exactly when the pattern 高一.+?部(.+?)限时练[\d.]+ occurs in the name |
| TimeLimitImporter.DigitRun | ScoreManagementServer/ScoreManagementServer/ScoreManagementServer/time_limit_exam_importer.py:28 | the greedy [\d.]+ group: the longest prefix made only of digits and dots |
| TimeLimitImporter.MatchSpans | ScoreManagementServer/ScoreManagementServer/ScoreManagementServer/time_limit_exam_importer.py:28-31 | the spans the search settles on exist exactly when the pattern occurs, and they delimit the head up to 部 and the subject group |
| TimeLimitImporter.ParseExamName | ScoreManagementServer/ScoreManagementServer/ScoreManagementServer/time_limit_exam_importer.py:24-48 | (None, None, None) exactly when the name does not match; on a match, exam_name is subject + "限时练" + the date text, and the exam date is built from that date text |
| TimeLimitImporter.StripDateText | ScoreManagementServer/ScoreManagementServer/ScoreManagementServer/time_limit_exam_importer.py:31 | a run of digits and dots is unchanged by strip() |
| TimeLimitImporter.ExamDateOfMonthDay | ScoreManagementServer/ScoreManagementServer/ScoreManagementServer/time_limit_exam_importer.py:34-38 | a date text "M.D" becomes "2024-MM-DD" with zero padding |
| TimeLimitImporter.ExamDateVerbatim | ScoreManagementServer/ScoreManagementServer/ScoreManagementServer/time_limit_exam_importer.py:39-40 | a date text without '.' is used as the date itself |
| TimeLimitImporter.StripTrailingDigits | ScoreManagementServer/ScoreManagementServer/ScoreManagementServer/time_limit_exam_importer.py:102 | re.sub(r'\d+$', '', s): a prefix of the text ending in a non-digit, and everything removed is a digit |
| TimeLimitImporter.CleanedText | ScoreManagementServer/ScoreManagementServer/ScoreManagementServer/time_limit_exam_importer.py:101-102 | the stripped text without its trailing digits ends in a non-digit |
| TimeLimitImporter.CleanStudentName | ScoreManagementServer/ScoreManagementServer/ScoreManagementServer/time_limit_exam_importer.py:95-103 | None for a falsy cell; a cleaned name is non-empty and does not end in a digit |
| TimeLimitImporter.CleanStudentNameIdempotent | ScoreManagementServer/ScoreManagementServer/ScoreManagementServer/time_limit_exam_importer.py:95-103 | cleaning a cleaned name again changes nothing when the name does not end in whitespace |
| TimeLimitImporter.CleanedStartsStripped | ScoreManagementServer/ScoreManagementServer/ScoreManagementServer/time_limit_exam_importer.py:101-102 | dropping trailing digits from stripped text keeps its first character, which is not whitespace |
| TimeLimitImporter.CleanNameKept | ScoreManagementServer/ScoreManagementServer/ScoreManagementServer/time_limit_exam_importer.py:95-103 | a name with no whitespace at either end and no trailing digit is cleaned to itself |
| TimeLimitImporter.CleanDropsDigit | ScoreManagementServer/ScoreManagementServer/ScoreManagementServer/time_limit_exam_importer.py:102 | a name ending in a non-digit followed by one digit loses exactly the digit |
| TimeLimitImporter.CleanStudentNameKeepsInnerSpace | ScoreManagementServer/ScoreManagementServer/ScoreManagementServer/time_limit_exam_importer.py:101-103 | whitespace before the trailing digits survives one cleaning ("Li 1" gives "Li ") but not a second ("Li " gives "Li"), so the idempotence needs its side condition |
| TimeLimitImporter.TermOfBuiltDate | ScoreManagementServer/ScoreManagementServer/ScoreManagementServer/time_limit_exam_importer.py:73-84 | for a date the file-name rule built, the term is 上学期 for month ≤ 7 and 下学期 otherwise, and the academic year is 2024-2025 |
| TimeLimitImporter.FindExam | ScoreManagementServer/ScoreManagementServer/ScoreManagementServer/time_limit_exam_importer.py:66-67 | the lookup by name finds an id exactly when an exam has that name, and the id is that exam's |
| TimeLimitImporter.CreateExamIfNotExists | ScoreManagementServer/ScoreManagementServer/ScoreManagementServer/time_limit_exam_importer.py:63-92 | an existing name returns its id and inserts nothing; otherwise the new row is appended with the given id, the derived term and the derived academic year |
| TimeLimitImporter.CreateExamThenFind | ScoreManagementServer/ScoreManagementServer/ScoreManagementServer/time_limit_exam_importer.py:63-92 | after the call the name is found with the returned id, and a second call returns the same id and inserts nothing |
| TimeLimitImporter.FindExamAppended | ScoreManagementServer/ScoreManagementServer/ScoreManagementServer/time_limit_exam_importer.py:66-92 | an appended exam with a new name is found under its own id |
| TimeLimitImporter.ScoreOf | ScoreManagementServer/ScoreManagementServer/ScoreManagementServer/time_limit_exam_importer.py:146-157 | '--', '-' and empty (including a falsy cell) mean absent, and a present score is the cell's float value |
| TimeLimitImporter.ZeroScoreIsAbsent | ScoreManagementServer/ScoreManagementServer/ScoreManagementServer/time_limit_exam_importer.py:146 | a numeric 0 score is falsy and so absent, while the text "0" is the score 0 |
| TimeLimitImporter.RankOf | ScoreManagementServer/ScoreManagementServer/ScoreManagementServer/time_limit_exam_importer.py:182-195 | an empty cell and the texts '--', '-', '' and 'None' give no rank |
| TimeLimitImporter.RankReadsBack | ScoreManagementServer/ScoreManagementServer/ScoreManagementServer/time_limit_exam_importer.py:184-189 | a rank written as a number, in a text cell or a numeric cell, reads back as itself |
| TimeLimitImporter.TextRank | ScoreManagementServer/ScoreManagementServer/ScoreManagementServer/time_limit_exam_importer.py:185-189 | a stripped rank text that parses as a number gives int(float(text)), truncated toward zero |
| TimeLimitImporter.FindByNumber | ScoreManagementServer/ScoreManagementServer/ScoreManagementServer/time_limit_exam_importer.py:165-166 | the lookup by number fails exactly when no student has that number, and otherwise returns a student with that number |
| TimeLimitImporter.FindByNameInClass | ScoreManagementServer/ScoreManagementServer/ScoreManagementServer/time_limit_exam_importer.py:170-172 | the fallback lookup fails exactly when no student of that name is in the class, and otherwise returns such a student |
| TimeLimitImporter.ProcessRow | ScoreManagementServer/ScoreManagementServer/ScoreManagementServer/time_limit_exam_importer.py:134-259 | a saved row has a score read from column 4, the class rank from column 5 and the grade rank from column 7 |
| TimeLimitImporter.AbsentRowsAreNotSaved | ScoreManagementServer/ScoreManagementServer/ScoreManagementServer/time_limit_exam_importer.py:149-236 | a row whose score is absent is never saved, and one without a name or a number fails without an error |
| TimeLimitImporter.Outcomes | ScoreManagementServer/ScoreManagementServer/ScoreManagementServer/time_limit_exam_importer.py:134 | one outcome per data row |
| TimeLimitImporter.OutcomeOfRow | ScoreManagementServer/ScoreManagementServer/ScoreManagementServer/time_limit_exam_importer.py:134 | data row i is processed on its own, as sheet row i + 4 |
| TimeLimitImporter.SavedCount | ScoreManagementServer/ScoreManagementServer/ScoreManagementServer/time_limit_exam_importer.py:259 | no more rows are saved than there are rows |
| TimeLimitImporter.UpsertLeavesOtherKeys | ScoreManagementServer/ScoreManagementServer/ScoreManagementServer/time_limit_exam_importer.py:238-256 | a key no saved row writes keeps its entry, or stays absent |
| TimeLimitImporter.UpsertLastRowWins | ScoreManagementServer/ScoreManagementServer/ScoreManagementServer/time_limit_exam_importer.py:238-256 | a key holds the score and ranks of the last row that saved it, so there is one row per (exam, student, subject) |
| TimeLimitImporter.ImportStep | ScoreManagementServer/ScoreManagementServer/ScoreManagementServer/time_limit_exam_importer.py:134-263 | each row adds one to exactly one of success_count and fail_count, appends its error if it has one, and writes its entry only when saved |
| TimeLimitImporter.ImportSheet | ScoreManagementServer/ScoreManagementServer/ScoreManagementServer/time_limit_exam_importer.py:106-263 | success_count + fail_count is the number of data rows, success_count counts the saved rows, the errors are those of the failed rows in order, and the table is the upsert of the saved rows in order |
| ExcelImport.Headers | ScoreManagementServer/ScoreManagementServer/excel_to_sqlite_v2.py:97-212 | one header per cell, each the stripped text of a truthy cell and "" otherwise |
| ExcelImport.ColumnMapLastWins | ScoreManagementServer/ScoreManagementServer/excel_to_sqlite_v2.py:100-257 | a key is in col_map exactly when some header claims it, and it points at the last header that does |
| ExcelImport.ColumnMapStep | ScoreManagementServer/ScoreManagementServer/excel_to_sqlite_v2.py:101-110 | one more header assigns its claimed keys on top of the map so far |
| ExcelImport.StudentClaims | ScoreManagementServer/ScoreManagementServer/excel_to_sqlite_v2.py:102-110 | through the elif chain each header takes at most one role |
| ExcelImport.StudentColumnRoles | ScoreManagementServer/ScoreManagementServer/excel_to_sqlite_v2.py:100-110 | a role is mapped only to a header naming it, with no later header taking that role |
| ExcelImport.MapStudentColumns | ScoreManagementServer/ScoreManagementServer/excel_to_sqlite_v2.py:100-110 | the header loop of import_students builds exactly the last-wins map of the headers' roles |
| ExcelImport.FieldText | ScoreManagementServer/ScoreManagementServer/excel_to_sqlite_v2.py:122-131 | an unmapped field reads "", and reading fails (IndexError) exactly when the mapped column is past the end of the row |
| ExcelImport.ReadStudentRow | ScoreManagementServer/ScoreManagementServer/excel_to_sqlite_v2.py:120-138 | the row ends the import exactly when a mapped number, name or class column is past its end; without a 学号/考号 column every row is skipped; a kept row has its non-empty name, a number other than "" and "None", and the default class when its class is empty |
| ExcelImport.ReadStudentRows | ScoreManagementServer/ScoreManagementServer/excel_to_sqlite_v2.py:120-138 | the rows are read in order, and the import ends exactly when some row ends it |
| ExcelImport.SaveStudentsCounts | ScoreManagementServer/ScoreManagementServer/excel_to_sqlite_v2.py:140-161 | every kept row adds to exactly one of success and updated, and the table grows by exactly the number of inserts |
| ExcelImport.SaveStudentsSnoc | ScoreManagementServer/ScoreManagementServer/excel_to_sqlite_v2.py:120-161 | saving one more row applies that row's update or insert to the table so far |
| ExcelImport.SaveStudentsLeavesOthers | ScoreManagementServer/ScoreManagementServer/excel_to_sqlite_v2.py:142-160 | a number that no kept row carries keeps its entry, or stays absent |
| ExcelImport.SaveStudentsLastRowWins | ScoreManagementServer/ScoreManagementServer/excel_to_sqlite_v2.py:142-160 | a number holds the name and class of the last row that kept it |
| ExcelImport.ImportStudents | ScoreManagementServer/ScoreManagementServer/excel_to_sqlite_v2.py:97-168 | the import ends before the commit, leaving the table as it was, exactly when some row is too short for a mapped column; otherwise the counters and the table are those of saving the kept rows in order |
| ExcelImport.SaveStudentRow | ScoreManagementServer/ScoreManagementServer/excel_to_sqlite_v2.py:140-161 | one kept row is updated when its number exists and inserted otherwise |
| ExcelImport.StudentsAbortPropagates | ScoreManagementServer/ScoreManagementServer/excel_to_sqlite_v2.py:120-131 | once a row has ended the import, the whole import has ended |
| ExcelImport.ExamIdOf | ScoreManagementServer/ScoreManagementServer/excel_to_sqlite_v2.py:189-193 | an exam id is accepted exactly when the stripped input is all digits |
| ExcelImport.ExamIdReadsBack | ScoreManagementServer/ScoreManagementServer/excel_to_sqlite_v2.py:189-193 | a number typed in decimal is accepted as that exam id |
| ExcelImport.FixedClaims | ScoreManagementServer/ScoreManagementServer/excel_to_sqlite_v2.py:224-239 | the keys outside the per-subject chain are the number, name and class columns and the total's columns |
| ExcelImport.SubjectClaimsMeaning | ScoreManagementServer/ScoreManagementServer/excel_to_sqlite_v2.py:242-257 | the subject loop gives a subject's score, class-rank and grade-rank column by its elif chain |
| ExcelImport.SubjectHeaderRoles | ScoreManagementServer/ScoreManagementServer/excel_to_sqlite_v2.py:242-257 | for the nine named subjects a header is the score column when it equals the subject or contains subject+成绩/分数; otherwise the 班名次/班级名次/班级排名 variants give the class-rank column, and otherwise the 年级名次/年级排名/校名次 variants the grade-rank column |
| ExcelImport.ClassRankHeaderAlsoClaimsClass | ScoreManagementServer/ScoreManagementServer/excel_to_sqlite_v2.py:230-252 | a subject's 班级名次 or 班级排名 header also contains 班级, so it moves the class column too |
| ExcelImport.TotalClassRankingIsGradeRank | ScoreManagementServer/ScoreManagementServer/excel_to_sqlite_v2.py:236-237 | a 总分班级排名 header is taken as the total's grade-rank column |
| ExcelImport.TotalClassRankColumn | ScoreManagementServer/ScoreManagementServer/excel_to_sqlite_v2.py:238-239 | the total's class-rank column comes only from its 班名次 and 班级名次 headers |
| ExcelImport.ScoreClaimsOf | ScoreManagementServer/ScoreManagementServer/excel_to_sqlite_v2.py:221-257 | each header claims the keys of the independent ifs of the header loop |
| ExcelImport.MapScoreColumns | ScoreManagementServer/ScoreManagementServer/excel_to_sqlite_v2.py:220-257 | the header loop of import_scores builds exactly the last-wins map of the headers' claims |
| ExcelImport.FindByName | ScoreManagementServer/ScoreManagementServer/excel_to_sqlite_v2.py:342-346 | the lookup by name fails exactly when no student has that name, and otherwise returns such a student |
| ExcelImport.FindNamed | ScoreManagementServer/ScoreManagementServer/excel_to_sqlite_v2.py:336-356 | the same name in the same class is looked up first, then anywhere; it fails exactly when nobody has the name |
| ExcelImport.LookupStudent | ScoreManagementServer/ScoreManagementServer/excel_to_sqlite_v2.py:298-373 | a found id is a student's; the row ends the import only when a mapped column is past its end; without number and name columns no student is found |
| ExcelImport.CellScore | ScoreManagementServer/ScoreManagementServer/excel_to_sqlite_v2.py:383-388 | a falsy cell has no score |
| ExcelImport.CellRank | ScoreManagementServer/ScoreManagementServer/excel_to_sqlite_v2.py:390-406 | a falsy cell has no rank, and a rank is int(float(v)) of the cell |
| ExcelImport.SubjectWrite | ScoreManagementServer/ScoreManagementServer/excel_to_sqlite_v2.py:376-436 | no write without a score column; a score column without both rank columns indexes the row with None and ends the import; a write carries the subject id and the cell's score |
| ExcelImport.SubjectWrites | ScoreManagementServer/ScoreManagementServer/excel_to_sqlite_v2.py:376-436 | the row ends the import exactly when one of its subjects does, and otherwise every subject that writes is written |
| ExcelImport.ScoresComeFromScoreColumns | ScoreManagementServer/ScoreManagementServer/excel_to_sqlite_v2.py:376-436 | scores are written only for subjects with a score column and a score that parses, and every such subject of a matched row is written |
| ExcelImport.MissingRankColumnWritesNothing | ScoreManagementServer/ScoreManagementServer/excel_to_sqlite_v2.py:391-400 | a subject with a score column but without both rank columns means no row is ever written |
| ExcelImport.ApplyWritesKeys | ScoreManagementServer/ScoreManagementServer/excel_to_sqlite_v2.py:412-434 | after a student's writes the keys are the old ones and the written (exam, student, subject) keys, and an unwritten key keeps its entry |
| ExcelImport.ScoreRows | ScoreManagementServer/ScoreManagementServer/excel_to_sqlite_v2.py:295 | one read per data row |
| ExcelImport.NoWritesSaveNothing | ScoreManagementServer/ScoreManagementServer/excel_to_sqlite_v2.py:295-441 | with no row written, success stays 0 and the table keeps every entry |
| ExcelImport.SaveScoreRowsSnoc | ScoreManagementServer/ScoreManagementServer/excel_to_sqlite_v2.py:295-441 | saving one more row applies that row's effect to the tally so far |
| ExcelImport.ImportScoreRows | ScoreManagementServer/ScoreManagementServer/excel_to_sqlite_v2.py:295-443 | the import ends exactly when some row ends it, leaving the Scores table as it was; otherwise the counters and table are those of the rows' effects in order |
| ExcelImport.AbortsSnoc | ScoreManagementServer/ScoreManagementServer/excel_to_sqlite_v2.py:295-441 | the rows so far end the import exactly when an earlier row did or this one does |
| ExcelImport.ImportScores | ScoreManagementServer/ScoreManagementServer/excel_to_sqlite_v2.py:178-457 | a non-digit exam id stops first, an unknown exam next, both changing nothing; otherwise subject 10 is made to exist as 总分, and the rows either end the import, leaving the Scores table unchanged, or give the counters and table of their effects |
| ExcelImport.WriteScores | ScoreManagementServer/ScoreManagementServer/excel_to_sqlite_v2.py:376-436 | the subject loop's upserts for one student are exactly the writes applied in order |
| ExcelImport.Fields | ScoreManagementServer/ScoreManagementServer/excel_to_sqlite_v2.py:640-675 | the query returns nine columns per row |
| ExcelImport.UnpackEight | ScoreManagementServer/ScoreManagementServer/excel_to_sqlite_v2.py:694 | an eight-target unpacking succeeds exactly when the tuple has eight items |
| ExcelImport.TrendDisplayAsWritten | ScoreManagementServer/ScoreManagementServer/excel_to_sqlite_v2.py:693-694 | the display loop succeeds exactly when every fetched tuple has eight items |
| ExcelImport.Fetched | ScoreManagementServer/ScoreManagementServer/excel_to_sqlite_v2.py:677 | one nine-column tuple per fetched row |
| ExcelImport.TrendUnpackAlwaysFails | ScoreManagementServer/ScoreManagementServer/excel_to_sqlite_v2.py:640-694 | as written, the report fails exactly when the student has a score at all |
| ExcelImport.ChangeOf | ScoreManagementServer/ScoreManagementServer/excel_to_sqlite_v2.py:697-709 | no label when the previous score is missing or 0; otherwise a rise, fall or no change by the sign of score minus previous score, carrying that difference |
| ExcelImport.TrendMarkMeaning | ScoreManagementServer/ScoreManagementServer/excel_to_sqlite_v2.py:697-709 | each trend mark is printed exactly when its condition holds |
| ExcelImport.TrendLineOf | ScoreManagementServer/ScoreManagementServer/excel_to_sqlite_v2.py:693-712 | the line as intended: the row's name, date and score, the change and the mark |
| ExcelImport.Subjects | ScoreManagementServer/ScoreManagementServer/excel_to_sqlite_v2.py:681-682 | each row's subject, in order |
| ExcelImport.FirstOccurrences | ScoreManagementServer/ScoreManagementServer/excel_to_sqlite_v2.py:680-685 | the distinct subjects, each once |
| ExcelImport.FilterStep | ScoreManagementServer/ScoreManagementServer/excel_to_sqlite_v2.py:685 | one more row joins only its own subject's group |
| ExcelImport.OrderStep | ScoreManagementServer/ScoreManagementServer/excel_to_sqlite_v2.py:683-684 | the first-seen order grows by the row's subject exactly when it is new |
| ExcelImport.GroupsStep | ScoreManagementServer/ScoreManagementServer/excel_to_sqlite_v2.py:685 | once the row joins its subject's group, every group is the rows of its subject so far |
| ExcelImport.GroupedNewSubject | ScoreManagementServer/ScoreManagementServer/excel_to_sqlite_v2.py:683-685 | a row of a new subject opens that subject's group with the row alone |
| ExcelImport.GroupedKnownSubject | ScoreManagementServer/ScoreManagementServer/excel_to_sqlite_v2.py:685 | a row of a subject already seen joins the end of its group |
| ExcelImport.GroupBySubject | ScoreManagementServer/ScoreManagementServer/excel_to_sqlite_v2.py:680-685 | the subjects in order of first appearance, and for each exactly its rows in query order |
| ExcelImport.FilterNone | ScoreManagementServer/ScoreManagementServer/excel_to_sqlite_v2.py:683-684 | a subject with no row has an empty group |
| ScoreService.Columns | ScoreManagementServer/ScoreManagementServer/ScoreManagementServer/Services/ScoreService.cs:31-36 | a stored row has exactly six subject columns |
| ScoreService.SubjectList | ScoreManagementServer/ScoreManagementServer/ScoreManagementServer/Services/ScoreService.cs:29-37 | the DTO lists the six subjects in the fixed order 语文, 数学, 英语, 物理, 化学, 生物, each with the score, class rank and grade rank of its own column |
| ScoreService.PresentScores | ScoreManagementServer/ScoreManagementServer/ScoreManagementServer/Services/ScoreService.cs:40 | the kept scores are exactly the values of the subjects whose score is present, never more than the subjects |
| ScoreService.AveragesAgree | ScoreManagementServer/ScoreManagementServer/ScoreManagementServer/Services/ScoreService.cs:41-67 | the rule of GetStudentScoreAsync (average when any score, else 0) and the rule of GetClassScoresAsync (average after DefaultIfEmpty(0)) give the same value for every list of scores |
| ScoreService.AverageWithin | ScoreManagementServer/ScoreManagementServer/ScoreManagementServer/Services/ScoreService.cs:41 | the average of a non-empty list of scores lies within any lower and upper bound of its scores |
| ScoreService.ToDto | ScoreManagementServer/ScoreManagementServer/ScoreManagementServer/Services/ScoreService.cs:25-41 | the DTO keeps the row's student and class names, has the six-subject list and as average the mean of the present scores or 0 |
| ScoreService.DtoAverage | ScoreManagementServer/ScoreManagementServer/ScoreManagementServer/Services/ScoreService.cs:40-41 | a DTO's average is 0 when no subject has a score and otherwise lies within any bounds of the present scores |
| ScoreService.FirstNamed | ScoreManagementServer/ScoreManagementServer/ScoreManagementServer/Services/ScoreService.cs:19-20 | no row is found exactly when no row has the name; otherwise the result is the first row with that name |
| ScoreService.GetStudentScore | ScoreManagementServer/ScoreManagementServer/ScoreManagementServer/Services/ScoreService.cs:15-44 | null exactly when no stored row has the name; otherwise the DTO of a row with that name |
| ScoreService.GetClassScores | ScoreManagementServer/ScoreManagementServer/ScoreManagementServer/Services/ScoreService.cs:46-69 | one DTO per row of the class, ordered by name as ORDER BY StudentName orders them, each in that class with the row's six subjects and the DefaultIfEmpty(0) average of its present scores |
| ScoreService.NameLeTotal | ScoreManagementServer/ScoreManagementServer/ScoreManagementServer/Services/ScoreService.cs:50 | SQLite's binary collation orders any two names one way or the other |
| ScoreService.InsertByName | ScoreManagementServer/ScoreManagementServer/ScoreManagementServer/Services/ScoreService.cs:50 | one row placed among rows ordered by name keeps them ordered and adds exactly that row |
| ScoreService.ByName | ScoreManagementServer/ScoreManagementServer/ScoreManagementServer/Services/ScoreService.cs:50 | ORDER BY StudentName: the rows ascending by name, the same rows as many times each |
| ScoreService.ClassDtosMatchStudentDto | ScoreManagementServer/ScoreManagementServer/ScoreManagementServer/Services/ScoreService.cs:25-67 | the class listing builds for each row, in name order, exactly the DTO the single-student query builds for it |
| ScoreApi.AppendLinesJoin | ScoreManagementClient/ScoreManagementClient/Assets/Scripts/Features/Score/Services/ScoreApiService.cs:97-102 | text built by AppendLine on each line is the lines joined by line breaks, ending in a line break |
| ScoreApi.AppendLinesReadBack | ScoreManagementClient/ScoreManagementClient/Assets/Scripts/Features/Score/Services/ScoreApiService.cs:97-165 | lines without line breaks, written with AppendLine and read back with ReadAllLines, give the same lines |
| ScoreApi.ParseNullableFloat | ScoreManagementClient/ScoreManagementClient/Assets/Scripts/Features/Score/Services/ScoreApiService.cs:200-209 | blank or whitespace-only text gives null |
| ScoreApi.ParseNullableFloatReadsBack | ScoreManagementClient/ScoreManagementClient/Assets/Scripts/Features/Score/Services/ScoreApiService.cs:200-209 | a whole number written in decimal reads back as that number, and an empty field reads as null |
| ScoreApi.ParsedLines | ScoreManagementClient/ScoreManagementClient/Assets/Scripts/Features/Score/Services/ScoreApiService.cs:168-190 | at most one record per line |
| ScoreApi.ParsedLinesFilterMap | ScoreManagementClient/ScoreManagementClient/Assets/Scripts/Features/Score/Services/ScoreApiService.cs:168-190 | the records are those of the lines that parse, in line order, and nothing else |
| ScoreApi.ParsedLinesMembers | ScoreManagementClient/ScoreManagementClient/Assets/Scripts/Features/Score/Services/ScoreApiService.cs:168-190 | a record is produced exactly when some line parses to it |
| ScoreApi.ParseCsvCount | ScoreManagementClient/ScoreManagementClient/Assets/Scripts/Features/Score/Services/ScoreApiService.cs:167-168 | the header line never gives a record: a file of at most one line gives none, and otherwise at most one per line after the header |
| ScoreApi.ParsedLinesSnoc | ScoreManagementClient/ScoreManagementClient/Assets/Scripts/Features/Score/Services/ScoreApiService.cs:168-190 | one more line appends its record at the end when it parses, and nothing otherwise |
| ScoreApi.ParseCsvFile | ScoreManagementClient/ScoreManagementClient/Assets/Scripts/Features/Score/Services/ScoreApiService.cs:159-198 | the records read from a file's text are those of its lines after the header that are non-empty after trimming and have at least eight comma-separated fields |
| ScoreApi.ParseCsvLines | ScoreManagementClient/ScoreManagementClient/Assets/Scripts/Features/Score/Services/ScoreApiService.cs:168-190 | the loop over the lines returns the records of the lines after the header, in order |
| ScoreApi.ParseJoinedLine | ScoreManagementClient/ScoreManagementClient/Assets/Scripts/Features/Score/Services/ScoreApiService.cs:170-187 | a line of at least eight comma-free fields that trimming leaves as it is parses into the record of its first eight fields |
| ScoreApi.SampleRowParses | ScoreManagementClient/ScoreManagementClient/Assets/Scripts/Features/Score/Services/ScoreApiService.cs:100-187 | a template-shaped row (number, six whole scores, empty last field) parses into that number, those six scores and a null politics score |
| ScoreApi.TemplateReadsBack | ScoreManagementClient/ScoreManagementClient/Assets/Scripts/Features/Score/Services/ScoreApiService.cs:95-198 | the downloaded template, read back by the CSV parser, gives exactly its three sample students with their scores |
| ScoreLogin.ValidateInput | ScoreManagementClient/ScoreManagementClient/Assets/Scripts/Features/Score/Controllers/LoginController.cs:133-167 | the input is accepted exactly when the user name has at least 3 characters and the password at least 6; otherwise the message is that of the first failing check in the order empty user name, empty password, short user name, short password, each exactly under its own condition |
| ScoreLogin.FailureMessage | ScoreManagementClient/ScoreManagementClient/Assets/Scripts/Features/Score/Controllers/LoginController.cs:196-228 | 400, 401, 404, 500 and 0 each get their fixed message; every other code gets "登录失败: " followed by the server's message |
| ScoreLogin.FailureMessagePassesThrough | ScoreManagementClient/ScoreManagementClient/Assets/Scripts/Features/Score/Controllers/LoginController.cs:205-225 | the message starts with the "登录失败: " prefix exactly when the code is none of 400, 401, 404, 500 and 0 |
| ScoreLogin.SavedLogin | ScoreManagementClient/ScoreManagementClient/Assets/Scripts/Features/Score/Controllers/LoginController.cs:178-182 | after a login the store holds the token, the user name and the login time under AuthToken, Username and LoginTime, and its keys are the old keys plus those three |
| ScoreLogin.ClearedLogin | ScoreManagementClient/ScoreManagementClient/Assets/Scripts/Features/Score/Controllers/LoginController.cs:248-252 | after a logout the store's keys are the old keys less AuthToken, Username and LoginTime |
| ScoreLogin.LogoutUndoesLogin | ScoreManagementClient/ScoreManagementClient/Assets/Scripts/Features/Score/Controllers/LoginController.cs:178-252 | logging out after a login leaves the store as logging out alone would: no login key remains and every other key keeps its value |
| ScoreLogin.LoginController.constructor | ScoreManagementClient/ScoreManagementClient/Assets/Scripts/Features/Score/Controllers/LoginController.cs:77-83 | a new controller holds the view's user name and password and has shown nothing, sent nothing and not touched the loading state |
| ScoreLogin.LoginController.OnLoginButtonClicked | ScoreManagementClient/ScoreManagementClient/Assets/Scripts/Features/Score/Controllers/LoginController.cs:77-128 | invalid input shows the validation message and touches neither the loading state nor the network; valid input turns loading on, shows "正在登录...", sends one request with the user name and password, shows "登录失败: " and the exception's message if the request throws, and always turns loading off last |
| ScoreLogin.LoginController.HandleLoginSuccess | ScoreManagementClient/ScoreManagementClient/Assets/Scripts/Features/Score/Controllers/LoginController.cs:172-191 | the store becomes the saved login with the token, the view's user name and the time, it is saved, and "登录成功！" is shown |
| ScoreLogin.LoginController.HandleLoginFailure | ScoreManagementClient/ScoreManagementClient/Assets/Scripts/Features/Score/Controllers/LoginController.cs:196-228 | exactly one error message is shown, the one FailureMessage gives for the code |
| ScoreLogin.LoginController.Logout | ScoreManagementClient/ScoreManagementClient/Assets/Scripts/Features/Score/Controllers/LoginController.cs:244-257 | the three login keys are deleted, the store is saved and "已退出登录" is shown |
| ScoreLogin.LoginController.CheckSavedToken | ScoreManagementClient/ScoreManagementClient/Assets/Scripts/Features/Score/Controllers/LoginController.cs:57-72 | "检测到已登录状态" is shown exactly when a non-empty AuthToken is stored, and nothing otherwise |
| ScoreLogin.LoginController.TestConnection | ScoreManagementClient/ScoreManagementClient/Assets/Scripts/Features/Score/Controllers/LoginController.cs:262-288 | one login request with the test account "test"/"test123" is sent after "正在测试连接..." is shown, and "连接测试失败" follows only when the request throws |
| AuthLogin.LoginStep | ScoreManagementClient/ScoreManagementClient/Assets/Scripts/Features/Auth/LoginController.cs:59-76 | while logging in, Login changes nothing; with an empty user name or password it publishes LoginFailed and keeps the state; otherwise it moves to LoggingIn, publishes the change and sends the request |
| AuthLogin.CallbackStep | ScoreManagementClient/ScoreManagementClient/Assets/Scripts/Features/Auth/LoginController.cs:77-90 | the callback moves to LoggedIn exactly on success and to Failed exactly on failure, always publishing the new state first and, on success only, LoginSuccess with the response after it |
| AuthLogin.LogoutStep | ScoreManagementClient/ScoreManagementClient/Assets/Scripts/Features/Auth/LoginController.cs:96-103 | logout moves to NotLoggedIn from any state and publishes the change and then Logout |
| AuthLogin.LoginIgnoredWhileLoggingIn | ScoreManagementClient/ScoreManagementClient/Assets/Scripts/Features/Auth/LoginController.cs:61-74 | once a valid Login has started, a second Login with any input changes nothing, publishes nothing and sends nothing |
| AuthLogin.StateChangesArePublished | ScoreManagementClient/ScoreManagementClient/Assets/Scripts/Features/Auth/LoginController.cs:67-76 | a Login that changes the state publishes LoginStateChanged with the new state, and it changes the state exactly when it sends a request |
| AuthLogin.LoginController.constructor | ScoreManagementClient/ScoreManagementClient/Assets/Scripts/Features/Auth/LoginController.cs:59-61 | a new controller is NotLoggedIn, holds no token, has published nothing and sent nothing |
| AuthLogin.LoginController.IsLoggedIn | ScoreManagementClient/ScoreManagementClient/Assets/Scripts/Features/Auth/LoginController.cs:127-130 | logged in exactly when the service holds a non-empty token |
| AuthLogin.LoginController.Login | ScoreManagementClient/ScoreManagementClient/Assets/Scripts/Features/Auth/LoginController.cs:59-91 | the state, the published events and the sent requests change exactly as LoginStep says |
| AuthLogin.LoginController.LoginCallback | ScoreManagementClient/ScoreManagementClient/Assets/Scripts/Features/Auth/LoginController.cs:77-90 | the state and events change as CallbackStep says, the token is stored on success only, and after a success IsLoggedIn holds |
| AuthLogin.LoginController.Logout | ScoreManagementClient/ScoreManagementClient/Assets/Scripts/Features/Auth/LoginController.cs:96-103 | the token is cleared so IsLoggedIn is false, the state is NotLoggedIn, and the two logout events are published |
| Prefs.PlayerPrefs.SetInt | ScoreManagementClient/ScoreManagementClient/Assets/Scripts/Utils/PlayerPrefsHelper.cs:17 | only the key changes, to the given int |
| Prefs.PlayerPrefs.SetFloat | ScoreManagementClient/ScoreManagementClient/Assets/Scripts/Utils/PlayerPrefsHelper.cs:26 | only the key changes, to the given float |
| Prefs.PlayerPrefs.SetString | ScoreManagementClient/ScoreManagementClient/Assets/Scripts/Utils/PlayerPrefsHelper.cs:35 | only the key changes, to the given string |
| Prefs.PlayerPrefs.DeleteKey | ScoreManagementClient/ScoreManagementClient/Assets/Scripts/Utils/PlayerPrefsHelper.cs:121 | the key is removed and every other entry stays |
| Prefs.PlayerPrefs.DeleteAll | ScoreManagementClient/ScoreManagementClient/Assets/Scripts/Utils/PlayerPrefsHelper.cs:130 | no entry is left |
| Prefs.PlayerPrefs.Save | ScoreManagementClient/ScoreManagementClient/Assets/Scripts/Utils/PlayerPrefsHelper.cs:18 | the saved entries become the current entries |
| Prefs.GetInt | ScoreManagementClient/ScoreManagementClient/Assets/Scripts/Utils/PlayerPrefsHelper.cs:64-67 | the stored int when the key holds an int, otherwise the default |
| Prefs.GetFloat | ScoreManagementClient/ScoreManagementClient/Assets/Scripts/Utils/PlayerPrefsHelper.cs:72-75 | the stored float when the key holds a float, otherwise the default |
| Prefs.GetString | ScoreManagementClient/ScoreManagementClient/Assets/Scripts/Utils/PlayerPrefsHelper.cs:80-83 | the stored string when the key holds a string, otherwise the default |
| Prefs.SetInt | ScoreManagementClient/ScoreManagementClient/Assets/Scripts/Utils/PlayerPrefsHelper.cs:15-19 | only the key changes, to the int, and the store is saved |
| Prefs.SetFloat | ScoreManagementClient/ScoreManagementClient/Assets/Scripts/Utils/PlayerPrefsHelper.cs:24-28 | only the key changes, to the float, and the store is saved |
| Prefs.SetString | ScoreManagementClient/ScoreManagementClient/Assets/Scripts/Utils/PlayerPrefsHelper.cs:33-37 | only the key changes, to the string, and the store is saved |
| Prefs.BoolCode | ScoreManagementClient/ScoreManagementClient/Assets/Scripts/Utils/PlayerPrefsHelper.cs:44 | true is stored as 1 and false as 0 |
| Prefs.SetBool | ScoreManagementClient/ScoreManagementClient/Assets/Scripts/Utils/PlayerPrefsHelper.cs:42-46 | only the key changes, to the int code of the bool, and the store is saved |
| Prefs.SetLong | ScoreManagementClient/ScoreManagementClient/Assets/Scripts/Utils/PlayerPrefsHelper.cs:51-55 | only the key changes, to the decimal string of the long, and the store is saved |
| Prefs.GetBool | ScoreManagementClient/ScoreManagementClient/Assets/Scripts/Utils/PlayerPrefsHelper.cs:88-91 | with an int stored, true exactly when it is 1; with none, the default |
| Prefs.TrimNumberWhite | ScoreManagementClient/ScoreManagementClient/Assets/Scripts/Utils/PlayerPrefsHelper.cs:99 | trimming never lengthens the text and leaves no number white space at either end |
| Prefs.TryParseLong | ScoreManagementClient/ScoreManagementClient/Assets/Scripts/Utils/PlayerPrefsHelper.cs:99 | whatever parses lies within the 64-bit range |
| Prefs.TryParseLongRoundTrip | ScoreManagementClient/ScoreManagementClient/Assets/Scripts/Utils/PlayerPrefsHelper.cs:53-99 | every 64-bit value written in decimal parses back to itself |
| Prefs.GetLong | ScoreManagementClient/ScoreManagementClient/Assets/Scripts/Utils/PlayerPrefsHelper.cs:96-102 | the result is a 64-bit value: the stored string's value when it parses, otherwise the default |
| Prefs.GetLongDefault | ScoreManagementClient/ScoreManagementClient/Assets/Scripts/Utils/PlayerPrefsHelper.cs:98-101 | with no string stored the default comes back through its own decimal rendering |
| Prefs.BoolRoundTrip | ScoreManagementClient/ScoreManagementClient/Assets/Scripts/Utils/PlayerPrefsHelper.cs:42-91 | GetBool after SetBool gives back the stored bool, whatever the default |
| Prefs.LongRoundTrip | ScoreManagementClient/ScoreManagementClient/Assets/Scripts/Utils/PlayerPrefsHelper.cs:51-102 | GetLong after SetLong gives back the stored long, whatever the default |
| Prefs.DeleteKey | ScoreManagementClient/ScoreManagementClient/Assets/Scripts/Utils/PlayerPrefsHelper.cs:119-123 | the key is removed, every other entry stays, and the store is saved |
| Prefs.DeleteAll | ScoreManagementClient/ScoreManagementClient/Assets/Scripts/Utils/PlayerPrefsHelper.cs:128-132 | no entry is left and the store is saved |
| Prefs.DeleteMeaning | ScoreManagementClient/ScoreManagementClient/Assets/Scripts/Utils/PlayerPrefsHelper.cs:111-132 | after DeleteKey HasKey is false for that key and unchanged for every other key, whose value stays; after DeleteAll HasKey is false for every key |
| Prefs.KeyWithPrefix | ScoreManagementClient/ScoreManagementClient/Assets/Scripts/Utils/PlayerPrefsHelper.cs:141-144 | the key is the prefix, then '_', then the key |
| Prefs.SetStringWithPrefix | ScoreManagementClient/ScoreManagementClient/Assets/Scripts/Utils/PlayerPrefsHelper.cs:149-152 | only the prefixed key changes, to the string, and the store is saved |
| Prefs.PrefixRoundTrip | ScoreManagementClient/ScoreManagementClient/Assets/Scripts/Utils/PlayerPrefsHelper.cs:149-160 | a value stored under a prefix and key reads back under the same prefix and key |
| Prefs.PrefixSeparatesKeys | ScoreManagementClient/ScoreManagementClient/Assets/Scripts/Utils/PlayerPrefsHelper.cs:141-160 | storing under one key of a prefix leaves every other key of that prefix reading as before |
| Prefs.PrefixesCanCollide | ScoreManagementClient/ScoreManagementClient/Assets/Scripts/Utils/PlayerPrefsHelper.cs:141-144 | the prefixed key spaces of different prefixes overlap: ("a_b", "c") and ("a", "b_c") name the same key |
| StringHelper.AlphanumericsExactly | ScoreManagementClient/ScoreManagementClient/Assets/Scripts/Utils/StringHelper.cs:17 | the alphabet holds 62 characters and they are exactly the ASCII letters and digits |
| StringHelper.GenerateRandomString | ScoreManagementClient/ScoreManagementClient/Assets/Scripts/Utils/StringHelper.cs:15-25 | a negative length fails; otherwise the text has exactly the requested length and character i is the alphabet's character at the i-th random pick, so every character is a letter or digit |
| StringHelper.EmailMatchShape | ScoreManagementClient/ScoreManagementClient/Assets/Scripts/Utils/StringHelper.cs:55-57 | the address pattern matches a whole text exactly when it has no white space, exactly one '@' that is not first, and a '.' in the domain with text on both sides |
| StringHelper.EmailMatchIsShape | ScoreManagementClient/ScoreManagementClient/Assets/Scripts/Utils/StringHelper.cs:55-57 | every text the address pattern matches has the address shape |
| StringHelper.EmailShapeIsMatch | ScoreManagementClient/ScoreManagementClient/Assets/Scripts/Utils/StringHelper.cs:55-57 | every text with the address shape is matched by the pattern |
| StringHelper.IsEmailMeaning | ScoreManagementClient/ScoreManagementClient/Assets/Scripts/Utils/StringHelper.cs:48-63 | IsEmail holds exactly for the address shape, and also for the address shape followed by one final line break, which the pattern's '$' lets through |
| StringHelper.RegexDigitAscii | ScoreManagementClient/ScoreManagementClient/Assets/Scripts/Utils/StringHelper.cs:73 | below U+0080 the pattern's digit class accepts exactly '0' to '9' |
| StringHelper.PhoneNumberAscii | ScoreManagementClient/ScoreManagementClient/Assets/Scripts/Utils/StringHelper.cs:68-74 | on ASCII text without a final line break, a phone number is exactly eleven characters: '1', one of '3' to '9', then nine digits |
| StringHelper.PhoneNumberLoopholes | ScoreManagementClient/ScoreManagementClient/Assets/Scripts/Utils/StringHelper.cs:73 | the pattern also accepts a valid number followed by one line break, and a number ending in a non-ASCII digit such as fullwidth '０' |
| StringHelper.RemoveSpecialCharacters | ScoreManagementClient/ScoreManagementClient/Assets/Scripts/Utils/StringHelper.cs:79-85 | the result is never longer than the input and holds exactly the input's letters, digits, '_' and '.' |
| StringHelper.RemoveSpecialCharactersIdempotent | ScoreManagementClient/ScoreManagementClient/Assets/Scripts/Utils/StringHelper.cs:79-85 | removing special characters a second time changes nothing |
| StringHelper.LowerChar | ScoreManagementClient/ScoreManagementClient/Assets/Scripts/Utils/StringHelper.cs:95 | a lowered character is never a capital, and a character that is not a capital is left as it is |
| StringHelper.UpperChar | ScoreManagementClient/ScoreManagementClient/Assets/Scripts/Utils/StringHelper.cs:114 | an upper-cased character is never a small letter, and a character that is not a small letter is left as it is |
| StringHelper.Lower | ScoreManagementClient/ScoreManagementClient/Assets/Scripts/Utils/StringHelper.cs:95-117 | lower-casing keeps the length and lowers each character in place |
| StringHelper.LowerUnchanged | ScoreManagementClient/ScoreManagementClient/Assets/Scripts/Utils/StringHelper.cs:95 | text without capitals is its own lower case |
| StringHelper.CamelToSnake | ScoreManagementClient/ScoreManagementClient/Assets/Scripts/Utils/StringHelper.cs:90-96 | snake case holds no capital |
| StringHelper.UnderscoreCapitalsNone | ScoreManagementClient/ScoreManagementClient/Assets/Scripts/Utils/StringHelper.cs:95 | text without capitals gets no '_' |
| StringHelper.UnderscoreCapitalWord | ScoreManagementClient/ScoreManagementClient/Assets/Scripts/Utils/StringHelper.cs:95 | a capital followed by no capitals gets exactly one '_', in front of it |
| StringHelper.CamelToSnakeSnoc | ScoreManagementClient/ScoreManagementClient/Assets/Scripts/Utils/StringHelper.cs:90-96 | a text that ends in a capital word turns into the snake case of what comes before, then '_', then that word lower-cased |
| StringHelper.SnakeToCamelNoUnderscore | ScoreManagementClient/ScoreManagementClient/Assets/Scripts/Utils/StringHelper.cs:101-123 | the camel case result holds no '_' |
| StringHelper.SnakeToCamel | ScoreManagementClient/ScoreManagementClient/Assets/Scripts/Utils/StringHelper.cs:101-123 | the loop builds the first word lower-cased followed by each later word capitalised, empty words dropped |
| StringHelper.SnakeToCamelSnoc | ScoreManagementClient/ScoreManagementClient/Assets/Scripts/Utils/StringHelper.cs:106-120 | appending '_' and a word appends that word capitalised |
| StringHelper.SnakeToCamelOfWords | ScoreManagementClient/ScoreManagementClient/Assets/Scripts/Utils/StringHelper.cs:103-122 | camel case is the first '_'-separated word lower-cased followed by the later words capitalised, the empty text included |
| StringHelper.CapitalisedLowered | ScoreManagementClient/ScoreManagementClient/Assets/Scripts/Utils/StringHelper.cs:95-118 | a capital word lower-cased and then capitalised is the word again |
| StringHelper.CamelSnakeRoundTrip | ScoreManagementClient/ScoreManagementClient/Assets/Scripts/Utils/StringHelper.cs:90-123 | SnakeToCamel undoes CamelToSnake on every text without '_' that does not start with a capital |
| StringHelper.CamelSnakeNoCapital | ScoreManagementClient/ScoreManagementClient/Assets/Scripts/Utils/StringHelper.cs:90-123 | a non-empty text without capitals or '_' is its own snake case and its own camel case |
| StringHelper.TruncateWithEllipsis | ScoreManagementClient/ScoreManagementClient/Assets/Scripts/Utils/StringHelper.cs:183-192 | empty text or text within the limit comes back as it is; otherwise a negative limit fails, a limit no longer than the ellipsis gives the ellipsis cut to the limit, and a longer limit gives the text's prefix followed by the whole ellipsis |
| StringHelper.TruncateWithEllipsisFits | ScoreManagementClient/ScoreManagementClient/Assets/Scripts/Utils/StringHelper.cs:183-192 | with a limit of 0 or more the call succeeds, the result never exceeds the limit, and it equals the input exactly when the input is empty or fits |
| StringHelper.FirstBreak | ScoreManagementClient/ScoreManagementClient/Assets/Scripts/Utils/StringHelper.cs:202 | the first '\r' or '\n' of the text, or its length when there is none |
| StringHelper.BreakAt | ScoreManagementClient/ScoreManagementClient/Assets/Scripts/Utils/StringHelper.cs:202 | the separator found at a break is "\r\n" when both characters are there, and otherwise the single break character, and it occurs at that position |
| StringHelper.Lines | ScoreManagementClient/ScoreManagementClient/Assets/Scripts/Utils/StringHelper.cs:202 | there is one more piece than separators |
| StringHelper.LinesNoBreak | ScoreManagementClient/ScoreManagementClient/Assets/Scripts/Utils/StringHelper.cs:197-203 | no piece holds '\r' or '\n' |
| StringHelper.LinesSeparators | ScoreManagementClient/ScoreManagementClient/Assets/Scripts/Utils/StringHelper.cs:202 | every removed separator is "\r\n", "\r" or "\n" |
| StringHelper.LinesRejoin | ScoreManagementClient/ScoreManagementClient/Assets/Scripts/Utils/StringHelper.cs:197-203 | the pieces with the removed separators between them give back the text |
| ExtensionMethods.Truncate | ScoreManagementClient/ScoreManagementClient/Assets/Scripts/Utils/ExtensionMethods.cs:171-176 | empty text or text within the limit comes back as it is; otherwise a negative limit fails and any other limit gives the first maxLength characters followed by "...", maxLength + 3 characters in all |
| ExtensionMethods.TruncateIdempotent | ScoreManagementClient/ScoreManagementClient/Assets/Scripts/Utils/ExtensionMethods.cs:171-176 | truncating twice with the same limit is truncating once |
| ExtensionMethods.RandomItem | ScoreManagementClient/ScoreManagementClient/Assets/Scripts/Utils/ExtensionMethods.cs:185-190 | a null or empty list gives the default; otherwise the item at the drawn index, which is an element of the list |
| ExtensionMethods.IsNullOrEmpty | ScoreManagementClient/ScoreManagementClient/Assets/Scripts/Utils/ExtensionMethods.cs:212-215 | true exactly for a null list or an empty one |
| ExtensionMethods.RandomItemPresence | ScoreManagementClient/ScoreManagementClient/Assets/Scripts/Utils/ExtensionMethods.cs:185-215 | RandomItem gives an item exactly when the list is not null or empty |
| ExtensionMethods.Swap | ScoreManagementClient/ScoreManagementClient/Assets/Scripts/Utils/ExtensionMethods.cs:203-205 | a step exchanges exactly positions i and j and leaves every other position alone |
| ExtensionMethods.SwapPermutes | ScoreManagementClient/ScoreManagementClient/Assets/Scripts/Utils/ExtensionMethods.cs:203-205 | a step keeps the same elements |
| ExtensionMethods.ShuffledFrom | ScoreManagementClient/ScoreManagementClient/Assets/Scripts/Utils/ExtensionMethods.cs:200-206 | the steps from i down keep the list's length |
| ExtensionMethods.ShuffledFromPermutes | ScoreManagementClient/ScoreManagementClient/Assets/Scripts/Utils/ExtensionMethods.cs:200-206 | whatever j is drawn at each step, the steps from i down give a permutation of the list |
| ExtensionMethods.ShuffledFromKeepsAbove | ScoreManagementClient/ScoreManagementClient/Assets/Scripts/Utils/ExtensionMethods.cs:200-206 | the steps from i down leave every position above i as it was |
| ExtensionMethods.ShuffledPermutes | ScoreManagementClient/ScoreManagementClient/Assets/Scripts/Utils/ExtensionMethods.cs:195-207 | the shuffle keeps length and elements, and leaves a list of fewer than two elements unchanged |
| ExtensionMethods.Shuffle | ScoreManagementClient/ScoreManagementClient/Assets/Scripts/Utils/ExtensionMethods.cs:195-207 | the list in place becomes the shuffle of its old contents for the drawn choices, a permutation of them |
| MathHelper.TurnDownTo180 | ScoreManagementClient/ScoreManagementClient/Assets/Scripts/Utils/MathHelper.cs:119 | the first loop stops at or below 180, moves the angle by whole turns only, stays above -180 when it moved it, and leaves an angle of at most 180 alone |
| MathHelper.TurnUpTo180 | ScoreManagementClient/ScoreManagementClient/Assets/Scripts/Utils/MathHelper.cs:120 | the second loop stops at or above -180, moves the angle by whole turns only, stays below 180 when it moved it, and leaves an angle of at least -180 alone |
| MathHelper.NormalizeAngleMeaning | ScoreManagementClient/ScoreManagementClient/Assets/Scripts/Utils/MathHelper.cs:117-122 | the result lies in [-180, 180], differs from the input by whole turns, equals the input when it is already in range, and normalising again changes nothing |
| MathHelper.NormalizeAngleEnds | ScoreManagementClient/ScoreManagementClient/Assets/Scripts/Utils/MathHelper.cs:119-120 | 180 and -180 are both fixed points, and 540 goes to 180 |
| MathHelper.NormalizeAngle | ScoreManagementClient/ScoreManagementClient/Assets/Scripts/Utils/MathHelper.cs:117-122 | the two loops compute NormalizeAngleOf of the angle |
| MathHelper.TurnUpToZero | ScoreManagementClient/ScoreManagementClient/Assets/Scripts/Utils/MathHelper.cs:129 | the first loop stops at or above 0, moves the angle by whole turns only, stays below 360 when it moved it, and leaves a non-negative angle alone |
| MathHelper.TurnDownBelow360 | ScoreManagementClient/ScoreManagementClient/Assets/Scripts/Utils/MathHelper.cs:130 | the second loop stops below 360, moves the angle by whole turns only, stays at or above 0 when it moved it, and leaves an angle below 360 alone |
| MathHelper.NormalizeAnglePositiveMeaning | ScoreManagementClient/ScoreManagementClient/Assets/Scripts/Utils/MathHelper.cs:127-132 | the result lies in [0, 360), differs from the input by whole turns, equals the input when it is already in range, and normalising again changes nothing |
| MathHelper.NormalizeAnglePositiveUnique | ScoreManagementClient/ScoreManagementClient/Assets/Scripts/Utils/MathHelper.cs:127-132 | two angles a whole number of turns apart normalise to the same value |
| MathHelper.NormalizeAnglePositive | ScoreManagementClient/ScoreManagementClient/Assets/Scripts/Utils/MathHelper.cs:127-132 | the two loops compute NormalizeAnglePositiveOf of the angle |
| MathHelper.RangeTestsAgree | ScoreManagementClient/ScoreManagementClient/Assets/Scripts/Utils/MathHelper.cs:137-148 | the strict test implies the inclusive one, and they differ exactly when the value is one of the bounds and within the range |
| MathHelper.LerpUnclamped | ScoreManagementClient/ScoreManagementClient/Assets/Scripts/Utils/MathHelper.cs:29-32 | t = 0 gives a and t = 1 gives b |
| MathHelper.LerpUnclampedAffine | ScoreManagementClient/ScoreManagementClient/Assets/Scripts/Utils/MathHelper.cs:29-32 | each unit step of t moves the result by b - a, so t = 2 gives 2b - a |
| MathHelper.LerpUnclampedExtrapolates | ScoreManagementClient/ScoreManagementClient/Assets/Scripts/Utils/MathHelper.cs:29-32 | t is not clamped: for a < b, t above 1 gives a value beyond b and t below 0 a value below a |
| MathHelper.ClampUnclampedIgnoresBounds | ScoreManagementClient/ScoreManagementClient/Assets/Scripts/Utils/MathHelper.cs:69-72 | the value is returned whatever the bounds, so a value outside the range stays outside |
| Events.Listed | ScoreManagementClient/ScoreManagementClient/Assets/Scripts/Utils/EventSystem.cs:19-23 | a null handler lists nothing and any other handler lists itself |
| Events.SubscribeOf | ScoreManagementClient/ScoreManagementClient/Assets/Scripts/Utils/EventSystem.cs:15-40 | Subscribe fails exactly when the name holds handlers of another delegate type; otherwise the name is present afterwards, its list is the old list (empty when the name was absent) with the handler appended, and every other name keeps its entry |
| Events.SubscribeKeepsTypes | ScoreManagementClient/ScoreManagementClient/Assets/Scripts/Utils/EventSystem.cs:15-40 | subscribing keeps every name's handlers of one delegate type |
| Events.LastIndex | ScoreManagementClient/ScoreManagementClient/Assets/Scripts/Utils/EventSystem.cs:71-88 | the last position holding the handler, or -1 when none does |
| Events.RemoveLast | ScoreManagementClient/ScoreManagementClient/Assets/Scripts/Utils/EventSystem.cs:71-88 | a null or absent handler removes nothing; otherwise exactly the handler's last occurrence is removed |
| Events.UnsubscribeOf | ScoreManagementClient/ScoreManagementClient/Assets/Scripts/Utils/EventSystem.cs:67-96 | Unsubscribe fails exactly when the name holds handlers of another type; an absent name leaves the table unchanged; otherwise the handler's last occurrence is removed and the name is deleted when no handler is left, so no name is left with an empty list |
| Events.UnsubscribeKeepsOthers | ScoreManagementClient/ScoreManagementClient/Assets/Scripts/Utils/EventSystem.cs:67-96 | unsubscribing leaves every other name's presence and entry unchanged |
| Events.UnsubscribeAbsent | ScoreManagementClient/ScoreManagementClient/Assets/Scripts/Utils/EventSystem.cs:67-96 | unsubscribing a handler that is not subscribed under the name leaves the table as it is |
| Events.SubscribeUnsubscribe | ScoreManagementClient/ScoreManagementClient/Assets/Scripts/Utils/EventSystem.cs:15-79 | subscribing a handler and then unsubscribing it restores the previous table |
| Events.Invoked | ScoreManagementClient/ScoreManagementClient/Assets/Scripts/Utils/EventSystem.cs:45-62 | Publish invokes nothing or exactly the name's handlers, in list order; it invokes them exactly when the name holds handlers and `as Action<T>` accepts their delegate type: the same type, or by contravariance an Action<U> whose U the requested reference type converts to |
| Events.PublishContravariant | ScoreManagementClient/ScoreManagementClient/Assets/Scripts/Utils/EventSystem.cs:45-51 | handlers subscribed as Action<object> are invoked by Publish<string> |
| Events.PublishInSubscriptionOrder | ScoreManagementClient/ScoreManagementClient/Assets/Scripts/Utils/EventSystem.cs:15-51 | after a subscription Publish invokes the handlers invoked before and then the new handler, last |
| Events.HasSubscribers | ScoreManagementClient/ScoreManagementClient/Assets/Scripts/Utils/EventSystem.cs:109-117 | true exactly when the name holds a non-null delegate |
| Events.UnsubscribeLeavesNoEmptyEntry | ScoreManagementClient/ScoreManagementClient/Assets/Scripts/Utils/EventSystem.cs:73-94 | after Unsubscribe the name has subscribers exactly when it is still in the table |
| Events.EventSystem.constructor | ScoreManagementClient/ScoreManagementClient/Assets/Scripts/Utils/EventSystem.cs:10 | the table starts empty |
| Events.EventSystem.Subscribe | ScoreManagementClient/ScoreManagementClient/Assets/Scripts/Utils/EventSystem.cs:15-40 | the call succeeds exactly when SubscribeOf does, and the table becomes its result, or stays as it was when Combine throws |
| Events.EventSystem.Unsubscribe | ScoreManagementClient/ScoreManagementClient/Assets/Scripts/Utils/EventSystem.cs:67-96 | the call succeeds exactly when UnsubscribeOf does, and the table becomes its result, or stays as it was when Remove throws |
| Events.EventSystem.Publish | ScoreManagementClient/ScoreManagementClient/Assets/Scripts/Utils/EventSystem.cs:45-62 | the handlers invoked are exactly those Invoked gives for the table, the name and the delegate type, and the table does not change |
| Events.EventSystem.ClearAll | ScoreManagementClient/ScoreManagementClient/Assets/Scripts/Utils/EventSystem.cs:101-104 | the table is empty, so no name has subscribers |
| Pool.ReleasedInto | ScoreManagementClient/ScoreManagementClient/Assets/Scripts/Utils/ObjectPool.cs:58-65 | a null item leaves the queue alone; any other item is appended at the back, reset first when there is a reset action, and otherwise as it is |
| Pool.TakenInOrder | ScoreManagementClient/ScoreManagementClient/Assets/Scripts/Utils/ObjectPool.cs:46-51 | Get after Get takes the items from the front of the queue, in queue order |
| Pool.ReleaseAllThenTake | ScoreManagementClient/ScoreManagementClient/Assets/Scripts/Utils/ObjectPool.cs:46-65 | items released one by one into an empty pool without a reset action come back from Get in release order |
| Pool.ReleasedAllAppends | ScoreManagementClient/ScoreManagementClient/Assets/Scripts/Utils/ObjectPool.cs:58-65 | releasing items without a reset action appends them in order |
| Pool.ObjectPool.constructor | ScoreManagementClient/ScoreManagementClient/Assets/Scripts/Utils/ObjectPool.cs:24-41 | a new pool is empty and keeps the reset action; with no creation function it creates items with new T() |
| Pool.ObjectPool.Count | ScoreManagementClient/ScoreManagementClient/Assets/Scripts/Utils/ObjectPool.cs:19 | the number of items in the queue |
| Pool.ObjectPool.Get | ScoreManagementClient/ScoreManagementClient/Assets/Scripts/Utils/ObjectPool.cs:46-53 | on a non-empty pool the oldest item is returned and removed, so Count drops by one; on an empty pool a newly created item is returned and Count stays 0 |
| Pool.ObjectPool.Release | ScoreManagementClient/ScoreManagementClient/Assets/Scripts/Utils/ObjectPool.cs:58-65 | the queue becomes ReleasedInto of the item, so Count grows by one for an item and stays for null |
| Pool.ObjectPool.Clear | ScoreManagementClient/ScoreManagementClient/Assets/Scripts/Utils/ObjectPool.cs:70-73 | the pool is emptied and Count is 0 |
| DataLogging.Sample | ScoreManagementClient/ScoreManagementClient/Assets/Scripts/Features/Physics/DataLogger.cs:94-121 | the point is stamped with the current time and keeps the target's speed and height, and its total energy is kinetic plus potential energy |
| DataLogging.SampleEnergySigns | ScoreManagementClient/ScoreManagementClient/Assets/Scripts/Features/Physics/DataLogger.cs:100-102 | for a non-negative mass the kinetic energy is never negative, and at height 0 the total energy is the kinetic energy |
| DataLogging.Windowed | ScoreManagementClient/ScoreManagementClient/Assets/Scripts/Features/Physics/DataLogger.cs:123-130 | adding a point grows the buffer by one or keeps its length, the new point is last, a buffer below the limit just gains the point, and the result never exceeds the limit unless the buffer already did |
| DataLogging.WindowedSlides | ScoreManagementClient/ScoreManagementClient/Assets/Scripts/Features/Physics/DataLogger.cs:123-130 | the buffer is a sliding window: holding the last Capacity points of the history, after one more point it holds the last Capacity points of the longer history |
| DataLogging.CollectedStep | ScoreManagementClient/ScoreManagementClient/Assets/Scripts/Features/Physics/DataLogger.cs:77-89 | a point taken at least one sample interval after the last keeps the history spaced and its energies adding up |
| DataLogging.SuffixKeepsSpacing | ScoreManagementClient/ScoreManagementClient/Assets/Scripts/Features/Physics/DataLogger.cs:127-130 | dropping the oldest points keeps the rest spaced and their energies adding up |
| DataLogging.Speeds | ScoreManagementClient/ScoreManagementClient/Assets/Scripts/Features/Physics/DataLogger.cs:167-297 | the speeds of the points, one per point, in buffer order |
| DataLogging.PointsInRange | ScoreManagementClient/ScoreManagementClient/Assets/Scripts/Features/Physics/DataLogger.cs:253-267 | the selection never holds more points than the buffer |
| DataLogging.PointsInRangeMembers | ScoreManagementClient/ScoreManagementClient/Assets/Scripts/Features/Physics/DataLogger.cs:258-265 | a point is selected exactly when it is in the buffer and its time after the first point lies in [start, end] |
| DataLogging.PointsInRangeAppend | ScoreManagementClient/ScoreManagementClient/Assets/Scripts/Features/Physics/DataLogger.cs:258-265 | the selection keeps buffer order: selecting from two halves gives the two selections one after the other |
| DataLogging.DataLogger.constructor | ScoreManagementClient/ScoreManagementClient/Assets/Scripts/Features/Physics/DataLogger.cs:14-75 | the logger starts with its limit and interval, an empty buffer, zero current values and the gate at the start time |
| DataLogging.DataLogger.IsRecording | ScoreManagementClient/ScoreManagementClient/Assets/Scripts/Features/Physics/DataLogger.cs:62 | recording exactly when the buffer holds a point |
| DataLogging.DataLogger.FixedUpdate | ScoreManagementClient/ScoreManagementClient/Assets/Scripts/Features/Physics/DataLogger.cs:77-89 | with no target or before a sample interval has passed nothing changes; otherwise the buffer becomes Windowed with the new sample and the current speed and all three energies are the sample's, and the buffer stays the last Capacity collected points, spaced and with energies adding up |
| DataLogging.DataLogger.CollectData | ScoreManagementClient/ScoreManagementClient/Assets/Scripts/Features/Physics/DataLogger.cs:94-131 | the current speed and energies become the sample's, the sample is collected, and the buffer becomes Windowed with it |
| DataLogging.DataLogger.StartRecording | ScoreManagementClient/ScoreManagementClient/Assets/Scripts/Features/Physics/DataLogger.cs:136-141 | the buffer is emptied and the gate restarts at the current time; the current values are kept |
| DataLogging.DataLogger.ClearData | ScoreManagementClient/ScoreManagementClient/Assets/Scripts/Features/Physics/DataLogger.cs:154-162 | the buffer is emptied and the four current values become 0; the gate is kept |
| DataLogging.DataLogger.BufferSpaced | ScoreManagementClient/ScoreManagementClient/Assets/Scripts/Features/Physics/DataLogger.cs:77-131 | the buffer's points are at least one sample interval apart, their energies add up, and there are never more than Capacity of them |
| DataLogging.DataLogger.GetVelocityData | ScoreManagementClient/ScoreManagementClient/Assets/Scripts/Features/Physics/DataLogger.cs:167-175 | one value per point, its speed, in buffer order |
| DataLogging.DataLogger.GetTimeData | ScoreManagementClient/ScoreManagementClient/Assets/Scripts/Features/Physics/DataLogger.cs:180-189 | one value per point, its time after the first point, so the series starts at 0 |
| DataLogging.DataLogger.GetKineticEnergyData | ScoreManagementClient/ScoreManagementClient/Assets/Scripts/Features/Physics/DataLogger.cs:194-202 | one value per point, its kinetic energy, in buffer order |
| DataLogging.DataLogger.GetPotentialEnergyData | ScoreManagementClient/ScoreManagementClient/Assets/Scripts/Features/Physics/DataLogger.cs:207-215 | one value per point, its potential energy, in buffer order |
| DataLogging.DataLogger.GetTotalEnergyData | ScoreManagementClient/ScoreManagementClient/Assets/Scripts/Features/Physics/DataLogger.cs:220-228 | one value per point, its total energy, in buffer order |
| DataLogging.DataLogger.CalculateTheoreticalVelocity | ScoreManagementClient/ScoreManagementClient/Assets/Scripts/Features/Physics/DataLogger.cs:236-248 | one value per point, v0 + a·t at its time after the first point, so the series starts at v0 |
| DataLogging.DataLogger.GetDataInRange | ScoreManagementClient/ScoreManagementClient/Assets/Scripts/Features/Physics/DataLogger.cs:253-267 | the points whose time after the first point lies in [start, end], in buffer order; nothing for an empty buffer |
| DataLogging.DataLogger.GetAverageSpeed | ScoreManagementClient/ScoreManagementClient/Assets/Scripts/Features/Physics/DataLogger.cs:288-298 | the mean of the buffer's speeds, 0 for an empty buffer |
| DataLogging.DataLogger.GetMaxSpeed | ScoreManagementClient/ScoreManagementClient/Assets/Scripts/Features/Physics/DataLogger.cs:303-316 | 0 for an empty buffer; otherwise the result is at least 0 and every speed, and is 0 or one of the speeds |
| DataLogging.DataLogger.GetMinSpeed | ScoreManagementClient/ScoreManagementClient/Assets/Scripts/Features/Physics/DataLogger.cs:321-334 | 0 for an empty buffer; otherwise the result is at most float.MaxValue and every speed, and is one of the speeds when any speed is not above float.MaxValue |
| ChartDrawing.Clamp01 | ScoreManagementClient/ScoreManagementClient/Assets/Scripts/Features/Physics/SimpleChartDrawer.cs:165 | the result lies in [0, 1] and a value already there is kept |
| ChartDrawing.InverseLerp | ScoreManagementClient/ScoreManagementClient/Assets/Scripts/Features/Physics/SimpleChartDrawer.cs:165 | the position lies in [0, 1], and is 0 when the range is a single point |
| ChartDrawing.InverseLerpInside | ScoreManagementClient/ScoreManagementClient/Assets/Scripts/Features/Physics/SimpleChartDrawer.cs:165 | for an increasing range a value strictly inside maps strictly between 0 and 1, one at or below the bottom to 0 and one at or above the top to 1 |
| ChartDrawing.InsideRangeDrawnInside | ScoreManagementClient/ScoreManagementClient/Assets/Scripts/Features/Physics/SimpleChartDrawer.cs:165-166 | a value strictly inside the range is drawn strictly between the bottom and the top of the chart |
| ChartDrawing.AutoRange | ScoreManagementClient/ScoreManagementClient/Assets/Scripts/Features/Physics/SimpleChartDrawer.cs:128-147 | the automatic range is non-empty and holds every value strictly inside it |
| ChartDrawing.Widened | ScoreManagementClient/ScoreManagementClient/Assets/Scripts/Features/Physics/SimpleChartDrawer.cs:143-146 | the widened range reaches strictly past both ends |
| ChartDrawing.AutoRangeMargin | ScoreManagementClient/ScoreManagementClient/Assets/Scripts/Features/Physics/SimpleChartDrawer.cs:143-146 | when the values differ the range is 1.2 times their spread; when they are all equal it is that value ± 0.1 |
| ChartDrawing.TrimmedIsLastN | ScoreManagementClient/ScoreManagementClient/Assets/Scripts/Features/Physics/SimpleChartDrawer.cs:92-95 | dropping from the front until at most maxPoints remain, and no further, leaves the last maxPoints values |
| ChartDrawing.ExtremesStep | ScoreManagementClient/ScoreManagementClient/Assets/Scripts/Features/Physics/SimpleChartDrawer.cs:136-140 | one step of the min/max scan keeps the running minimum and maximum of the values seen |
| ChartDrawing.HeightsInside | ScoreManagementClient/ScoreManagementClient/Assets/Scripts/Features/Physics/SimpleChartDrawer.cs:162-170 | values strictly inside the range are all drawn strictly between the bottom and the top of the chart |
| ChartDrawing.AutoHeightsInside | ScoreManagementClient/ScoreManagementClient/Assets/Scripts/Features/Physics/SimpleChartDrawer.cs:97-170 | drawn against the automatic range every value lies strictly inside the chart |
| ChartDrawing.StatisticsOf | ScoreManagementClient/ScoreManagementClient/Assets/Scripts/Features/Physics/SimpleChartDrawer.cs:207-231 | no values give the default statistics; otherwise the count is the number of values, min and max are values bounding all of them, the average lies between them and range = max - min ≥ 0 |
| ChartDrawing.SimpleChartDrawer.constructor | ScoreManagementClient/ScoreManagementClient/Assets/Scripts/Features/Physics/SimpleChartDrawer.cs:15-58 | the chart starts with its settings, no values and an empty line |
| ChartDrawing.SimpleChartDrawer.AddDataPoint | ScoreManagementClient/ScoreManagementClient/Assets/Scripts/Features/Physics/SimpleChartDrawer.cs:63-80 | the values become the last maxPoints of the old values plus the new one; with auto-scaling and values present the range becomes AutoRange of them, otherwise it is kept; the line is redrawn |
| ChartDrawing.SimpleChartDrawer.AddDataPoints | ScoreManagementClient/ScoreManagementClient/Assets/Scripts/Features/Physics/SimpleChartDrawer.cs:85-103 | the values become the last maxPoints of the old values followed by all new ones; with auto-scaling and values present the range becomes AutoRange of them, otherwise it is kept; the line is redrawn |
| ChartDrawing.SimpleChartDrawer.AppendValues | ScoreManagementClient/ScoreManagementClient/Assets/Scripts/Features/Physics/SimpleChartDrawer.cs:87-90 | every new value is appended, in order |
| ChartDrawing.SimpleChartDrawer.TrimOldest | ScoreManagementClient/ScoreManagementClient/Assets/Scripts/Features/Physics/SimpleChartDrawer.cs:92-95 | the oldest values are removed until the last maxPoints remain |
| ChartDrawing.SimpleChartDrawer.ClearData | ScoreManagementClient/ScoreManagementClient/Assets/Scripts/Features/Physics/SimpleChartDrawer.cs:108-112 | no values and no line positions remain; the range and the auto-scaling flag stay |
| ChartDrawing.SimpleChartDrawer.SetValueRange | ScoreManagementClient/ScoreManagementClient/Assets/Scripts/Features/Physics/SimpleChartDrawer.cs:117-123 | the range becomes the given bounds, auto-scaling is off, the values are kept and the line is redrawn |
| ChartDrawing.SimpleChartDrawer.UpdateValueRange | ScoreManagementClient/ScoreManagementClient/Assets/Scripts/Features/Physics/SimpleChartDrawer.cs:128-147 | with values present the range becomes AutoRange of them; with none it stays |
| ChartDrawing.SimpleChartDrawer.ScanExtremes | ScoreManagementClient/ScoreManagementClient/Assets/Scripts/Features/Physics/SimpleChartDrawer.cs:133-140 | the scan from float.MaxValue and float.MinValue ends at the least and the greatest value |
| ChartDrawing.SimpleChartDrawer.UpdateChart | ScoreManagementClient/ScoreManagementClient/Assets/Scripts/Features/Physics/SimpleChartDrawer.cs:152-173 | the line has one position per value, at the value's place in the current range scaled to the chart height |
| ChartDrawing.SimpleChartDrawer.AutoScaledLineInside | ScoreManagementClient/ScoreManagementClient/Assets/Scripts/Features/Physics/SimpleChartDrawer.cs:97-170 | with auto-scaling on every value is drawn strictly between the bottom and the top of the chart |
| ChartDrawing.SimpleChartDrawer.GetStatistics | ScoreManagementClient/ScoreManagementClient/Assets/Scripts/Features/Physics/SimpleChartDrawer.cs:207-231 | the loop returns StatisticsOf the values |
| ChartDrawing.SimpleChartDrawer.GetCurrentValue | ScoreManagementClient/ScoreManagementClient/Assets/Scripts/Features/Physics/SimpleChartDrawer.cs:236-239 | the newest value, or 0 when there is none |
| Energy.ElasticEnergy | ScoreManagementClient/ScoreManagementClient/Assets/Scripts/Features/Physics/EnergyCalculator.cs:126-134 | a spring of non-negative stiffness stores non-negative energy, and none at its rest length |
| Energy.ElasticEnergySymmetric | ScoreManagementClient/ScoreManagementClient/Assets/Scripts/Features/Physics/EnergyCalculator.cs:130-133 | stretching and compressing a spring by the same amount store the same energy |
| Energy.Totals | ScoreManagementClient/ScoreManagementClient/Assets/Scripts/Features/Physics/EnergyCalculator.cs:212-221 | one total per entry, in history order |
| Energy.Kinetics | ScoreManagementClient/ScoreManagementClient/Assets/Scripts/Features/Physics/EnergyCalculator.cs:184-193 | one kinetic energy per entry, in history order |
| Energy.Potentials | ScoreManagementClient/ScoreManagementClient/Assets/Scripts/Features/Physics/EnergyCalculator.cs:198-207 | one gravitational energy per entry, in history order |
| Energy.Elastics | ScoreManagementClient/ScoreManagementClient/Assets/Scripts/Features/Physics/EnergyCalculator.cs:145 | one elastic energy per entry, in history order |
| Energy.SumTotals | ScoreManagementClient/ScoreManagementClient/Assets/Scripts/Features/Physics/EnergyCalculator.cs:120-297 | summed over the history, the totals are the summed kinetic, gravitational and elastic energies |
| Energy.MeanTotals | ScoreManagementClient/ScoreManagementClient/Assets/Scripts/Features/Physics/EnergyCalculator.cs:120-303 | the average total energy is the sum of the average kinetic, gravitational and elastic energies |
| Energy.MaxDeviation | ScoreManagementClient/ScoreManagementClient/Assets/Scripts/Features/Physics/EnergyCalculator.cs:316-327 | the result is at least 0, bounds every total's distance from the first, and is 0 or attained by some total |
| Energy.DeviationZeroIffConserved | ScoreManagementClient/ScoreManagementClient/Assets/Scripts/Features/Physics/EnergyCalculator.cs:311-328 | the deviation is never negative, and it is 0 exactly when every recorded total equals the first |
| Energy.StatisticsOf | ScoreManagementClient/ScoreManagementClient/Assets/Scripts/Features/Physics/EnergyCalculator.cs:283-306 | an empty history gives the default statistics, and the deviation is never negative |
| Energy.StatisticsKineticNonNegative | ScoreManagementClient/ScoreManagementClient/Assets/Scripts/Features/Physics/EnergyCalculator.cs:302 | when every recorded kinetic energy is non-negative so is their average |
| Energy.EnergyCalculator.constructor | ScoreManagementClient/ScoreManagementClient/Assets/Scripts/Features/Physics/EnergyCalculator.cs:17-68 | the calculator starts with the inspector's defaults (g = 9.81, reference height 0, no spring, k = 10, rest length 1), zero energies, an empty history and the clock at the start time |
| Energy.EnergyCalculator.Update | ScoreManagementClient/ScoreManagementClient/Assets/Scripts/Features/Physics/EnergyCalculator.cs:70-86 | without a target nothing changes; otherwise the four energies are recomputed as CalculateEnergies defines them (kinetic m·v²/2, potential m·g·(y − reference), elastic only with a spring, their sum) and, when more than 0.1 s has passed, the current energies are recorded and the clock moves to now, else history and clock stay; the settings never change, the history never exceeds 500 entries and each entry's total is the sum of its parts |
| Energy.EnergyCalculator.Record | ScoreManagementClient/ScoreManagementClient/Assets/Scripts/Features/Physics/EnergyCalculator.cs:141-148 | the entry holds the current time and the four current energies |
| Energy.EnergyCalculator.CalculateEnergies | ScoreManagementClient/ScoreManagementClient/Assets/Scripts/Features/Physics/EnergyCalculator.cs:91-121 | the total is kinetic plus gravitational plus elastic; without a target all are 0; otherwise kinetic is m·v²/2, gravitational m·g·(y − reference) and elastic the spring energy only when a spring is enabled |
| Energy.EnergyCalculator.RecordEnergyData | ScoreManagementClient/ScoreManagementClient/Assets/Scripts/Features/Physics/EnergyCalculator.cs:139-157 | the history becomes the last 500 entries of the old history plus the new record |
| Energy.EnergyCalculator.ResetEnergies | ScoreManagementClient/ScoreManagementClient/Assets/Scripts/Features/Physics/EnergyCalculator.cs:162-168 | all four energies become 0 |
| Energy.EnergyCalculator.GetKineticEnergyHistory | ScoreManagementClient/ScoreManagementClient/Assets/Scripts/Features/Physics/EnergyCalculator.cs:184-193 | the kinetic energies of the history, in order |
| Energy.EnergyCalculator.GetPotentialEnergyHistory | ScoreManagementClient/ScoreManagementClient/Assets/Scripts/Features/Physics/EnergyCalculator.cs:198-207 | the gravitational energies of the history, in order |
| Energy.EnergyCalculator.GetTotalEnergyHistory | ScoreManagementClient/ScoreManagementClient/Assets/Scripts/Features/Physics/EnergyCalculator.cs:212-221 | the totals of the history, in order |
| Energy.EnergyCalculator.GetTimeHistory | ScoreManagementClient/ScoreManagementClient/Assets/Scripts/Features/Physics/EnergyCalculator.cs:226-236 | one value per entry, its time after the first entry, so the series starts at 0 |
| Energy.EnergyCalculator.ClearHistory | ScoreManagementClient/ScoreManagementClient/Assets/Scripts/Features/Physics/EnergyCalculator.cs:241-245 | the history is emptied |
| Energy.EnergyCalculator.SetGravity | ScoreManagementClient/ScoreManagementClient/Assets/Scripts/Features/Physics/EnergyCalculator.cs:250-253 | g becomes the given value |
| Energy.EnergyCalculator.SetReferenceHeight | ScoreManagementClient/ScoreManagementClient/Assets/Scripts/Features/Physics/EnergyCalculator.cs:258-261 | the reference height becomes the given value |
| Energy.EnergyCalculator.SetSpringEnabled | ScoreManagementClient/ScoreManagementClient/Assets/Scripts/Features/Physics/EnergyCalculator.cs:266-269 | the spring flag becomes the given value |
| Energy.EnergyCalculator.SetSpringParameters | ScoreManagementClient/ScoreManagementClient/Assets/Scripts/Features/Physics/EnergyCalculator.cs:274-278 | stiffness and rest length become the given values |
| Energy.EnergyCalculator.GetStatistics | ScoreManagementClient/ScoreManagementClient/Assets/Scripts/Features/Physics/EnergyCalculator.cs:283-306 | the loop returns StatisticsOf the history: the means of total, kinetic and gravitational energy and the deviation, or the defaults for an empty history |
| Energy.EnergyCalculator.CalculateEnergyDeviation | ScoreManagementClient/ScoreManagementClient/Assets/Scripts/Features/Physics/EnergyCalculator.cs:311-328 | the loop returns EnergyDeviation of the history |
| BeltExperiment.EnabledButtonsAct | ScoreManagementClient/ScoreManagementClient/Assets/Scripts/Features/Physics/BeltConveyorExperimentController.cs:349-370 | start, pause and reset are enabled exactly when the command would act; stop is enabled only when running, so it is off in Paused although a stop would act there; pause and stop are enabled together |
| BeltExperiment.BeltRunningAppend | ScoreManagementClient/ScoreManagementClient/Assets/Scripts/Features/Physics/BeltConveyorExperimentController.cs:148-312 | calls that neither start nor stop the belt leave it running or standing as it was |
| BeltExperiment.BeltRunningAfter | ScoreManagementClient/ScoreManagementClient/Assets/Scripts/Features/Physics/BeltConveyorExperimentController.cs:148-214 | after a StartBelt or StopBelt followed only by other calls, the belt is as that call left it |
| BeltExperiment.StateTextDistinct | ScoreManagementClient/ScoreManagementClient/Assets/Scripts/Features/Physics/BeltConveyorExperimentController.cs:393-408 | the four status texts are pairwise different: equal texts mean equal states |
| BeltExperiment.BeltConveyorExperimentController.constructor | ScoreManagementClient/ScoreManagementClient/Assets/Scripts/Features/Physics/BeltConveyorExperimentController.cs:50-143 | the buttons match the initial state; without auto-start nothing is called and the state is NotStarted; with it the experiment is running from now with the start calls made |
| BeltExperiment.BeltConveyorExperimentController.StartExperiment | ScoreManagementClient/ScoreManagementClient/Assets/Scripts/Features/Physics/BeltConveyorExperimentController.cs:148-185 | a running experiment is unchanged; from any other state (Paused included) it restarts from now with nothing elapsed, starts belt and recording and clears both charts; the belt then runs |
| BeltExperiment.BeltConveyorExperimentController.Halt | ScoreManagementClient/ScoreManagementClient/Assets/Scripts/Features/Physics/BeltConveyorExperimentController.cs:200-263 | the belt is stopped and recording ends, each only when present; with a conveyor the belt then stands |
| BeltExperiment.BeltConveyorExperimentController.PauseExperiment | ScoreManagementClient/ScoreManagementClient/Assets/Scripts/Features/Physics/BeltConveyorExperimentController.cs:190-214 | only a running experiment pauses, halting belt and recording; in any other state nothing changes; the belt state keeps matching the experiment state |
| BeltExperiment.BeltConveyorExperimentController.ResumeExperiment | ScoreManagementClient/ScoreManagementClient/Assets/Scripts/Features/Physics/BeltConveyorExperimentController.cs:219-238 | only a paused experiment resumes, with the start time moved back by the elapsed time so the clock carries on, and only the belt restarted |
| BeltExperiment.BeltConveyorExperimentController.StopExperiment | ScoreManagementClient/ScoreManagementClient/Assets/Scripts/Features/Physics/BeltConveyorExperimentController.cs:243-270 | any started experiment completes, halting belt and recording; a not-started one is untouched |
| BeltExperiment.BeltConveyorExperimentController.ResetExperiment | ScoreManagementClient/ScoreManagementClient/Assets/Scripts/Features/Physics/BeltConveyorExperimentController.cs:275-312 | back to NotStarted with nothing elapsed; block, logger, energy history and both charts are reset, and the belt keeps running or standing as it was |
| BeltExperiment.BeltConveyorExperimentController.Update | ScoreManagementClient/ScoreManagementClient/Assets/Scripts/Features/Physics/BeltConveyorExperimentController.cs:61-388 | only while running: elapsed is measured from the start time, each chart is fed when it and its source are present, and the experiment completes (halting) exactly when elapsed reaches the duration; otherwise nothing changes |
| BeltExperiment.BeltConveyorExperimentController.SetExperimentDuration | ScoreManagementClient/ScoreManagementClient/Assets/Scripts/Features/Physics/BeltConveyorExperimentController.cs:444-448 | the duration is the given one, raised to one second when smaller |
| BeltExperiment.StartFromPausedRestarts | ScoreManagementClient/ScoreManagementClient/Assets/Scripts/Features/Physics/BeltConveyorExperimentController.cs:148-185 | pressing start on a paused experiment restarts it from zero rather than resuming |
| BeltExperiment.PauseResumeKeepsElapsed | ScoreManagementClient/ScoreManagementClient/Assets/Scripts/Features/Physics/BeltConveyorExperimentController.cs:61-238 | pause then resume then update: the elapsed time grows by the time since resuming, the paused interval is not counted |
| ExperimentManaging.ExperimentManager.constructor | ScoreManagementClient/ScoreManagementClient/Assets/Scripts/Features/Physics/ExperimentManager.cs:46-90 | initialised once with the scene's physics objects, no experiment started, and the configured scale applied to the engine |
| ExperimentManaging.ExperimentManager.Update | ScoreManagementClient/ScoreManagementClient/Assets/Scripts/Features/Physics/ExperimentManager.cs:71-78 | while running the duration is the time since the start; otherwise it is kept |
| ExperimentManaging.ExperimentManager.StartExperiment | ScoreManagementClient/ScoreManagementClient/Assets/Scripts/Features/Physics/ExperimentManager.cs:103-118 | a running experiment is untouched; otherwise it runs from now with duration 0, the engine at the manager's scale, and one state-changed event published; the object list and the scale setting are untouched |
| ExperimentManaging.ExperimentManager.PauseExperiment | ScoreManagementClient/ScoreManagementClient/Assets/Scripts/Features/Physics/ExperimentManager.cs:123-136 | only a running experiment pauses, freezing engine time (scale 0) and publishing the change; nothing else changes |
| ExperimentManaging.ExperimentManager.ResumeExperiment | ScoreManagementClient/ScoreManagementClient/Assets/Scripts/Features/Physics/ExperimentManager.cs:141-154 | only a paused experiment resumes, the engine back at the manager's scale and the change published; the start time is not moved |
| ExperimentManaging.ExperimentManager.StopExperiment | ScoreManagementClient/ScoreManagementClient/Assets/Scripts/Features/Physics/ExperimentManager.cs:159-174 | any started experiment completes with normal engine time, publishing the state change and then the completion with the last measured duration; a not-started one is untouched |
| ExperimentManaging.ExperimentManager.ResetExperiment | ScoreManagementClient/ScoreManagementClient/Assets/Scripts/Features/Physics/ExperimentManager.cs:179-192 | from any state: NotStarted, duration 0, normal engine time, every listed object reset once in list order, and the change published |
| ExperimentManaging.ExperimentManager.SetTimeScale | ScoreManagementClient/ScoreManagementClient/Assets/Scripts/Features/Physics/ExperimentManager.cs:197-207 | the scale is the request clamped to [0.1, 10]; the engine takes it at once only while running, so the state/time-scale agreement is kept |
| ExperimentManaging.ExperimentManager.AddPhysicsObject | ScoreManagementClient/ScoreManagementClient/Assets/Scripts/Features/Physics/ExperimentManager.cs:212-219 | a non-null object not yet listed is appended; a null or listed one changes nothing; the list stays free of repeats |
| ExperimentManaging.ExperimentManager.RemovePhysicsObject | ScoreManagementClient/ScoreManagementClient/Assets/Scripts/Features/Physics/ExperimentManager.cs:224-231 | the object's (only) occurrence is removed and no other membership changes; null changes nothing |
| ExperimentManaging.PauseResume | ScoreManagementClient/ScoreManagementClient/Assets/Scripts/Features/Physics/ExperimentManager.cs:123-154 | pausing then resuming a running experiment restores its time scale and publishes Paused then Running |
| ExperimentManaging.AddRemove | ScoreManagementClient/ScoreManagementClient/Assets/Scripts/Features/Physics/ExperimentManager.cs:212-231 | adding an unlisted object and removing it again leaves the list as it was |
| Experiments.RejectedCommandsChangeNothing | ScoreManagementClient/ScoreManagementClient/Assets/Scripts/Features/Physics/ExperimentManager.cs:103-192 | a command its guard turns away leaves the state as it is; accepted Start, Pause and Resume always move it; the only accepted no-ops are Stop when completed and Reset when not started |
| Experiments.CommandsCompose | ScoreManagementClient/ScoreManagementClient/Assets/Scripts/Features/Physics/ExperimentManager.cs:103-192 | Start and Stop are idempotent, Pause then Resume brings a running experiment back to Running, and Stop after Reset does nothing |
| Experiments.CompletedOnlyByStop | ScoreManagementClient/ScoreManagementClient/Assets/Scripts/Features/Physics/BeltConveyorExperimentController.cs:148-312 | any command sequence that brings an experiment into Completed from another state contains Stop |
| Experiments.PausedOnlyByPause | ScoreManagementClient/ScoreManagementClient/Assets/Scripts/Features/Physics/BeltConveyorExperimentController.cs:148-312 | any command sequence that brings an experiment into Paused from another state contains Pause |
| Game3D.Game3DController.constructor | ScoreManagementClient/ScoreManagementClient/Assets/Scripts/Features/Game3D/Controllers/Game3DController.cs:14-18 | a fresh game: score 0, not paused, the engine's time scale left as it was |
| Game3D.Game3DController.GameScore | ScoreManagementClient/ScoreManagementClient/Assets/Scripts/Features/Game3D/Controllers/Game3DController.cs:12 | the score is always 0, since nothing raises it |
| Game3D.Game3DController.StartGame | ScoreManagementClient/ScoreManagementClient/Assets/Scripts/Features/Game3D/Controllers/Game3DController.cs:23-28 | the score is reset to 0 and nothing else changes |
| Game3D.Game3DController.PauseGame | ScoreManagementClient/ScoreManagementClient/Assets/Scripts/Features/Game3D/Controllers/Game3DController.cs:33-41 | the game ends paused; only a first pause freezes engine time, a repeated one changes nothing |
| Game3D.Game3DController.ResumeGame | ScoreManagementClient/ScoreManagementClient/Assets/Scripts/Features/Game3D/Controllers/Game3DController.cs:46-54 | the game ends unpaused; resuming a paused game sets engine time to normal speed (1), otherwise nothing changes |
| Game3D.Game3DController.EndGame | ScoreManagementClient/ScoreManagementClient/Assets/Scripts/Features/Game3D/Controllers/Game3DController.cs:59-63 | reports the final score, 0, and changes nothing |
| Game3D.Game3DController.GetGameScore | ScoreManagementClient/ScoreManagementClient/Assets/Scripts/Features/Game3D/Controllers/Game3DController.cs:68-71 | reports the current score, 0, and changes nothing |
| Game3D.PauseThenResume | ScoreManagementClient/ScoreManagementClient/Assets/Scripts/Features/Game3D/Controllers/Game3DController.cs:33-54 | pause then resume leaves time at normal speed, not at the scale it had before the pause |
| Game3D.PauseTwice | ScoreManagementClient/ScoreManagementClient/Assets/Scripts/Features/Game3D/Controllers/Game3DController.cs:33-41 | a second pause keeps the game paused with time frozen |
| Transmission.LinearVelocityIndependentOfRadius | ScoreManagementClient/ScoreManagementClient/Assets/Scripts/Features/Physics/BeltTransmission.cs:185-195 | every driven wheel's rim speed, angular velocity times its radius, equals driver angular velocity times driver radius times the ratio, whatever the wheel's radius |
| Transmission.InitialRadii | ScoreManagementClient/ScoreManagementClient/Assets/Scripts/Features/Physics/BeltTransmission.cs:111-119 | one radius per wheel: the configured radii when their count matches, otherwise 0.5 for every wheel |
| Transmission.SpunMeaning | ScoreManagementClient/ScoreManagementClient/Assets/Scripts/Features/Physics/BeltTransmission.cs:180-193 | after a transmission step each non-null driven body spins at ω_driver · (r_driver / r) · ratio for the radius at its last slot |
| Transmission.SpunElsewhere | ScoreManagementClient/ScoreManagementClient/Assets/Scripts/Features/Physics/BeltTransmission.cs:180-193 | a transmission step leaves the spin of bodies not in the driven array as it was |
| Transmission.StoppedMeaning | ScoreManagementClient/ScoreManagementClient/Assets/Scripts/Features/Physics/BeltTransmission.cs:281-291 | disabling brings every non-null driven body to rest and leaves all other bodies alone |
| Transmission.RatioSettersAgree | ScoreManagementClient/ScoreManagementClient/Assets/Scripts/Features/Physics/BeltTransmission.cs:42-272 | the clamping property setter and the unclamped SetTransmissionRatio store the same value exactly when it lies in [0.1, 10] |
| Transmission.BeltTransmission.constructor | ScoreManagementClient/ScoreManagementClient/Assets/Scripts/Features/Physics/BeltTransmission.cs:62-140 | with no configured wheels the tagged scene bodies are used; radii come from InitialRadii; velocity arrays are allocated to the wheel count, all zero; the driver is kinematic exactly when present and used as motor |
| Transmission.BeltTransmission.SetTransmissionRatioProperty | ScoreManagementClient/ScoreManagementClient/Assets/Scripts/Features/Physics/BeltTransmission.cs:42-46 | the stored ratio is the value clamped to [0.1, 10] |
| Transmission.BeltTransmission.SetTransmissionRatio | ScoreManagementClient/ScoreManagementClient/Assets/Scripts/Features/Physics/BeltTransmission.cs:268-272 | the ratio is stored as given, without clamping |
| Transmission.BeltTransmission.SetDriverAngularVelocity | ScoreManagementClient/ScoreManagementClient/Assets/Scripts/Features/Physics/BeltTransmission.cs:259-263 | the driver's angular velocity is stored as given |
| Transmission.BeltTransmission.FixedUpdate | ScoreManagementClient/ScoreManagementClient/Assets/Scripts/Features/Physics/BeltTransmission.cs:73-79 | a disabled transmission, or one without a driver or driven wheels, changes nothing; an enabled one with both makes one transmission step; the velocity of a missing wheel is never touched |
| Transmission.BeltTransmission.UpdateTransmission | ScoreManagementClient/ScoreManagementClient/Assets/Scripts/Features/Physics/BeltTransmission.cs:164-198 | no driver or no wheels: nothing changes; otherwise the driver's linear speed is ω·r_driver, every non-null wheel spins as Spun says and has linear speed ω·r_driver·ratio, and null slots keep their linear speed |
| Transmission.BeltTransmission.SetIsEnabled | ScoreManagementClient/ScoreManagementClient/Assets/Scripts/Features/Physics/BeltTransmission.cs:56-60 | the enabled flag is stored as given |
| Transmission.BeltTransmission.SetEnabled | ScoreManagementClient/ScoreManagementClient/Assets/Scripts/Features/Physics/BeltTransmission.cs:277-294 | the flag is stored; disabling stops every non-null driven body, enabling leaves all spins alone |
| Transmission.BeltTransmission.AddDrivenRigidbody | ScoreManagementClient/ScoreManagementClient/Assets/Scripts/Features/Physics/BeltTransmission.cs:299-317 | both arrays grow by one with the new body and radius last, earlier entries kept; the velocity arrays are fresh zeros; a null body fails only at the closing log line, after the update |
| Transmission.BeltTransmission.RemoveDrivenRigidbody | ScoreManagementClient/ScoreManagementClient/Assets/Scripts/Features/Physics/BeltTransmission.cs:322-341 | the first slot holding the body is removed from both arrays at the same index, velocity arrays reallocated; a body not present changes nothing |
| Transmission.BeltTransmission.AverageDrivenAngularVelocity | ScoreManagementClient/ScoreManagementClient/Assets/Scripts/Features/Physics/BeltTransmission.cs:362-373 | the mean of the driven angular velocities (0 for none), which is 0 since that array is never written |
| Transmission.BeltTransmission.GetStatistics | ScoreManagementClient/ScoreManagementClient/Assets/Scripts/Features/Physics/BeltTransmission.cs:346-357 | the statistics carry the driver's radius, angular and linear speed, the ratio, the wheel count and the average driven angular velocity (0) |
| Transmission.AddThenRemove | ScoreManagementClient/ScoreManagementClient/Assets/Scripts/Features/Physics/BeltTransmission.cs:299-341 | adding an unlisted wheel and removing it again restores both arrays |
| Conveyor.SpeedSettersAgree | ScoreManagementClient/ScoreManagementClient/Assets/Scripts/Features/Physics/BeltConveyor.cs:40-243 | the BeltSpeed setter (magnitude) and SetBeltSpeed (raw value) store the same speed exactly when the value is not negative; taking the magnitude twice changes nothing |
| Conveyor.BeltConveyor.constructor | ScoreManagementClient/ScoreManagementClient/Assets/Scripts/Features/Physics/BeltConveyor.cs:12-111 | the configured speed, running flag, incline (kept in [0, 90] by the inspector), mass and gravity, with the belt tilted back by the incline |
| Conveyor.BeltConveyor.SetBeltSpeedProperty | ScoreManagementClient/ScoreManagementClient/Assets/Scripts/Features/Physics/BeltConveyor.cs:40-47 | the stored speed is the magnitude of the value, never negative, and equal to it when it is not negative |
| Conveyor.BeltConveyor.SetBeltSpeed | ScoreManagementClient/ScoreManagementClient/Assets/Scripts/Features/Physics/BeltConveyor.cs:239-243 | the speed is stored as given, a negative one included |
| Conveyor.BeltConveyor.SetIsRunning | ScoreManagementClient/ScoreManagementClient/Assets/Scripts/Features/Physics/BeltConveyor.cs:52-56 | the running flag is stored as given |
| Conveyor.BeltConveyor.SetInclineAngle | ScoreManagementClient/ScoreManagementClient/Assets/Scripts/Features/Physics/BeltConveyor.cs:61-70 | the incline is the value clamped to [0, 90] (the value itself when inside), and the belt is re-tilted to match |
| Conveyor.BeltConveyor.UpdateIncline | ScoreManagementClient/ScoreManagementClient/Assets/Scripts/Features/Physics/BeltConveyor.cs:163-167 | the belt's x rotation is minus the incline angle |
| Conveyor.BeltConveyor.StartBelt | ScoreManagementClient/ScoreManagementClient/Assets/Scripts/Features/Physics/BeltConveyor.cs:221-225 | the belt is running |
| Conveyor.BeltConveyor.StopBelt | ScoreManagementClient/ScoreManagementClient/Assets/Scripts/Features/Physics/BeltConveyor.cs:230-234 | the belt is not running |
| Conveyor.BeltConveyor.SetObjectMass | ScoreManagementClient/ScoreManagementClient/Assets/Scripts/Features/Physics/BeltConveyor.cs:248-252 | the mass is stored as given |
| Conveyor.BeltConveyor.SetGravity | ScoreManagementClient/ScoreManagementClient/Assets/Scripts/Features/Physics/BeltConveyor.cs:257-261 | the gravity is stored as given |
| Conveyor.BeltConveyor.GetVelocityAtPoint | ScoreManagementClient/ScoreManagementClient/Assets/Scripts/Features/Physics/BeltConveyor.cs:274-280 | zero when the belt is stopped; otherwise the belt speed along its forward direction |
| Conveyor.BeltConveyor.IsPointOnBelt | ScoreManagementClient/ScoreManagementClient/Assets/Scripts/Features/Physics/BeltConveyor.cs:285-291 | a point, in belt coordinates, is on the belt exactly when it lies strictly inside half the width, half the length and 0.5 in height either way |
| Conveyor.VelocityIgnoresPoint | ScoreManagementClient/ScoreManagementClient/Assets/Scripts/Features/Physics/BeltConveyor.cs:274-280 | the velocity a belt imparts is the same at every point |
| Conveyor.StartStop | ScoreManagementClient/ScoreManagementClient/Assets/Scripts/Features/Physics/BeltConveyor.cs:221-280 | starting then stopping leaves the belt stopped and carrying nothing |
| PhysicsMaterials.Clamp01 | ScoreManagementClient/ScoreManagementClient/Assets/Scripts/Features/Physics/PhysicsMaterialController.cs:112-135 | the result lies in [0, 1] and is the value itself when it already does |
| PhysicsMaterials.PhysicsMaterialController.constructor | ScoreManagementClient/ScoreManagementClient/Assets/Scripts/Features/Physics/PhysicsMaterialController.cs:43-79 | the initial frictions are stored clamped to [min, max] and the bounciness clamped to [0, 1], all mirrored on the material |
| PhysicsMaterials.PhysicsMaterialController.SetDynamicFriction | ScoreManagementClient/ScoreManagementClient/Assets/Scripts/Features/Physics/PhysicsMaterialController.cs:84-92 | dynamic friction is the value clamped to the friction range (inside it when the range is ordered) and the material shows it |
| PhysicsMaterials.PhysicsMaterialController.SetStaticFriction | ScoreManagementClient/ScoreManagementClient/Assets/Scripts/Features/Physics/PhysicsMaterialController.cs:97-105 | static friction is the value clamped to the friction range (inside it when the range is ordered) and the material shows it |
| PhysicsMaterials.PhysicsMaterialController.SetBounciness | ScoreManagementClient/ScoreManagementClient/Assets/Scripts/Features/Physics/PhysicsMaterialController.cs:110-118 | bounciness is the value clamped to [0, 1] and the material shows it |
| PhysicsMaterials.PhysicsMaterialController.SetFriction | ScoreManagementClient/ScoreManagementClient/Assets/Scripts/Features/Physics/PhysicsMaterialController.cs:123-127 | dynamic and static friction end equal, both the clamped value; bounciness is untouched |
| PhysicsMaterials.PhysicsMaterialController.SetFrictionRange | ScoreManagementClient/ScoreManagementClient/Assets/Scripts/Features/Physics/PhysicsMaterialController.cs:132-136 | each bound is clamped to [0, 1] on its own, so reversed bounds stay reversed, and the current frictions are not touched |
| PhysicsMaterials.PhysicsMaterialController.ResetToInitial | ScoreManagementClient/ScoreManagementClient/Assets/Scripts/Features/Physics/PhysicsMaterialController.cs:141-148 | the three initial values are re-applied through the clamping setters, against the current range |
| PhysicsMaterials.PhysicsMaterialController.SetFrictionless | ScoreManagementClient/ScoreManagementClient/Assets/Scripts/Features/Physics/PhysicsMaterialController.cs:185-190 | both frictions become 0 clamped into the range: 0 when the range contains it, the lower bound when that is positive |
| PhysicsMaterials.PhysicsMaterialController.SetMaximumFriction | ScoreManagementClient/ScoreManagementClient/Assets/Scripts/Features/Physics/PhysicsMaterialController.cs:195-200 | both frictions become the upper bound when the range is ordered, the lower bound when it is reversed |
| PhysicsMaterials.NarrowedRangeKeepsFriction | ScoreManagementClient/ScoreManagementClient/Assets/Scripts/Features/Physics/PhysicsMaterialController.cs:132-136 | narrowing the range to [0, 0.5] leaves a friction set earlier as it was, possibly outside the new range |
| Lifecycle.DisposeModels | ScoreManagementClient/ScoreManagementClient/Assets/Scripts/Core/Base/LifecycleManager.cs:144-147 | every model in the registry goes through Dispose once; each keeps its protocol invariant |
| Lifecycle.DisposeControllers | ScoreManagementClient/ScoreManagementClient/Assets/Scripts/Core/Base/LifecycleManager.cs:150-153 | every controller in the registry goes through Dispose once, its enabled flag untouched |
| Lifecycle.DisposeServices | ScoreManagementClient/ScoreManagementClient/Assets/Scripts/Core/Base/LifecycleManager.cs:156-159 | every service in the registry goes through Dispose once |
| Lifecycle.DisposeManagers | ScoreManagementClient/ScoreManagementClient/Assets/Scripts/Core/Base/LifecycleManager.cs:162-165 | every manager in the registry goes through Dispose once |
| Lifecycle.LifecycleManager.constructor | ScoreManagementClient/ScoreManagementClient/Assets/Scripts/Core/Base/LifecycleManager.cs:27-30 | all four registries start empty |
| Lifecycle.LifecycleManager.RegisterModel | ScoreManagementClient/ScoreManagementClient/Assets/Scripts/Core/Base/LifecycleManager.cs:46-53 | a non-null model not yet registered is appended and initialised; null or a registered one changes nothing; no model is listed twice; the other registries are outside the frame |
| Lifecycle.LifecycleManager.RegisterController | ScoreManagementClient/ScoreManagementClient/Assets/Scripts/Core/Base/LifecycleManager.cs:58-65 | a non-null controller not yet registered is appended and initialised; null or a registered one changes nothing; no controller is listed twice |
| Lifecycle.LifecycleManager.RegisterService | ScoreManagementClient/ScoreManagementClient/Assets/Scripts/Core/Base/LifecycleManager.cs:70-77 | a non-null service not yet registered is appended and initialised; null or a registered one changes nothing; no service is listed twice |
| Lifecycle.LifecycleManager.RegisterManager | ScoreManagementClient/ScoreManagementClient/Assets/Scripts/Core/Base/LifecycleManager.cs:82-89 | a non-null manager not yet registered is appended and initialised; null or a registered one changes nothing; no manager is listed twice |
| Lifecycle.LifecycleManager.UnregisterModel | ScoreManagementClient/ScoreManagementClient/Assets/Scripts/Core/Base/LifecycleManager.cs:94-101 | a registered model is disposed and removed, every other model staying; anything else changes nothing |
| Lifecycle.LifecycleManager.UnregisterController | ScoreManagementClient/ScoreManagementClient/Assets/Scripts/Core/Base/LifecycleManager.cs:106-113 | a registered controller is disposed and removed, every other controller staying; anything else changes nothing |
| Lifecycle.LifecycleManager.UnregisterService | ScoreManagementClient/ScoreManagementClient/Assets/Scripts/Core/Base/LifecycleManager.cs:118-125 | a registered service is disposed and removed, every other service staying; anything else changes nothing |
| Lifecycle.LifecycleManager.UnregisterManager | ScoreManagementClient/ScoreManagementClient/Assets/Scripts/Core/Base/LifecycleManager.cs:130-137 | a registered manager is disposed and removed, every other manager staying; anything else changes nothing |
| Lifecycle.LifecycleManager.CleanupAll | ScoreManagementClient/ScoreManagementClient/Assets/Scripts/Core/Base/LifecycleManager.cs:142-167 | every component registered beforehand is disposed once and all four registries end empty |
| Lifecycle.RegisterThenUnregister | ScoreManagementClient/ScoreManagementClient/Assets/Scripts/Core/Base/LifecycleManager.cs:46-101 | registering a fresh model and unregistering it restores the registry and leaves the model disposed, its OnInitialize and OnDispose having run once each |
| Lifecycle.RegisterTwice | ScoreManagementClient/ScoreManagementClient/Assets/Scripts/Core/Base/LifecycleManager.cs:58-65 | registering a controller twice lists it once and initialises it once |
| BaseClasses.Initialized | ScoreManagementClient/ScoreManagementClient/Assets/Scripts/Core/Base/BaseModel.cs:18-23 | afterwards the object is initialised; OnInitialize has run once more exactly when it was not, and OnDispose has not run |
| BaseClasses.Disposed | ScoreManagementClient/ScoreManagementClient/Assets/Scripts/Core/Base/BaseModel.cs:33-38 | afterwards the object is not initialised; OnDispose has run once more exactly when it was, and OnInitialize has not run |
| BaseClasses.StepsKeepBalance | ScoreManagementClient/ScoreManagementClient/Assets/Scripts/Core/Base/BaseManager.cs:25-45 | both steps keep the invariant that OnInitialize has run as often as OnDispose, plus one while initialised |
| BaseClasses.StepsIdempotent | ScoreManagementClient/ScoreManagementClient/Assets/Scripts/Core/Base/BaseController.cs:31-81 | a second Initialize, or a second Dispose, changes nothing |
| BaseClasses.InitializeDisposeInitialize | ScoreManagementClient/ScoreManagementClient/Assets/Scripts/Core/Base/BaseManager.cs:25-45 | Initialize, Dispose, Initialize from a new object runs OnInitialize twice and OnDispose once and leaves it initialised |
| BaseClasses.InitializeSteps | ScoreManagementClient/ScoreManagementClient/Assets/Scripts/Core/Base/BaseManager.cs:25-30 | the count of Initialize calls in a sequence is at most its length |
| BaseClasses.ReplayBalanced | ScoreManagementClient/ScoreManagementClient/Assets/Scripts/Core/Base/BaseManager.cs:25-45 | any sequence of Initialize and Dispose calls keeps the invariant, and OnInitialize runs at most once per Initialize call |
| BaseClasses.ReplayLastCallWins | ScoreManagementClient/ScoreManagementClient/Assets/Scripts/Core/Base/BaseModel.cs:18-38 | after at least one call, the object is initialised exactly when the last call was Initialize |
| BaseClasses.BaseModel.constructor | ScoreManagementClient/ScoreManagementClient/Assets/Scripts/Core/Base/BaseModel.cs:8 | a new model is not initialised and no hook has run |
| BaseClasses.BaseModel.Initialize | ScoreManagementClient/ScoreManagementClient/Assets/Scripts/Core/Base/BaseModel.cs:18-23 | the protocol steps as Initialized says and stays balanced |
| BaseClasses.BaseModel.Dispose | ScoreManagementClient/ScoreManagementClient/Assets/Scripts/Core/Base/BaseModel.cs:33-38 | the protocol steps as Disposed says, nothing when not initialised, and stays balanced |
| BaseClasses.BaseService.constructor | ScoreManagementClient/ScoreManagementClient/Assets/Scripts/Core/Base/BaseService.cs:8 | a new service is not initialised and no hook has run |
| BaseClasses.BaseService.Initialize | ScoreManagementClient/ScoreManagementClient/Assets/Scripts/Core/Base/BaseService.cs:18-23 | the protocol steps as Initialized says and stays balanced |
| BaseClasses.BaseService.Dispose | ScoreManagementClient/ScoreManagementClient/Assets/Scripts/Core/Base/BaseService.cs:33-38 | the protocol steps as Disposed says, nothing when not initialised, and stays balanced |
| BaseClasses.BaseManager.constructor | ScoreManagementClient/ScoreManagementClient/Assets/Scripts/Core/Base/BaseManager.cs:10-20 | Awake initialises the new manager once |
| BaseClasses.BaseManager.Initialize | ScoreManagementClient/ScoreManagementClient/Assets/Scripts/Core/Base/BaseManager.cs:25-30 | the protocol steps as Initialized says and stays balanced |
| BaseClasses.BaseManager.Dispose | ScoreManagementClient/ScoreManagementClient/Assets/Scripts/Core/Base/BaseManager.cs:40-45 | the protocol steps as Disposed says, nothing when not initialised, and stays balanced |
| BaseClasses.BaseManager.OnDestroy | ScoreManagementClient/ScoreManagementClient/Assets/Scripts/Core/Base/BaseManager.cs:52-55 | destroying the component disposes it |
| BaseClasses.BaseController.constructor | ScoreManagementClient/ScoreManagementClient/Assets/Scripts/Core/Base/BaseController.cs:10-26 | a new controller is enabled with no enable/disable hook run, and Awake initialises it once |
| BaseClasses.BaseController.Initialize | ScoreManagementClient/ScoreManagementClient/Assets/Scripts/Core/Base/BaseController.cs:31-36 | the protocol steps as Initialized says; the enabled flag is untouched |
| BaseClasses.BaseController.Enable | ScoreManagementClient/ScoreManagementClient/Assets/Scripts/Core/Base/BaseController.cs:46-51 | the controller ends enabled; OnEnable runs exactly when it was disabled |
| BaseClasses.BaseController.Disable | ScoreManagementClient/ScoreManagementClient/Assets/Scripts/Core/Base/BaseController.cs:61-66 | the controller ends disabled; OnDisable runs exactly when it was enabled |
| BaseClasses.BaseController.Dispose | ScoreManagementClient/ScoreManagementClient/Assets/Scripts/Core/Base/BaseController.cs:76-81 | the protocol steps as Disposed says; the enabled flag is untouched |
| BaseClasses.BaseController.OnDestroy | ScoreManagementClient/ScoreManagementClient/Assets/Scripts/Core/Base/BaseController.cs:88-91 | destroying the component disposes it |
| BaseClasses.BaseView.constructor | ScoreManagementClient/ScoreManagementClient/Assets/Scripts/Core/Base/BaseView.cs:9-25 | a new view is visible with its game object as the scene has it and no show/hide hook run; Awake runs and initialises it once when the object is active, and an inactive view stays uninitialised |
| BaseClasses.BaseView.Awake | ScoreManagementClient/ScoreManagementClient/Assets/Scripts/Core/Base/BaseView.cs:22-25 | Awake, which Unity runs once on the object's first activation, initialises the view |
| BaseClasses.BaseView.Initialize | ScoreManagementClient/ScoreManagementClient/Assets/Scripts/Core/Base/BaseView.cs:30-35 | the protocol steps as Initialized says |
| BaseClasses.BaseView.Show | ScoreManagementClient/ScoreManagementClient/Assets/Scripts/Core/Base/BaseView.cs:22-53 | the view ends visible; a hidden view has its game object activated and OnShow run once, and if the object was never active before, its Awake runs and initialises it; a visible view is untouched |
| BaseClasses.BaseView.Hide | ScoreManagementClient/ScoreManagementClient/Assets/Scripts/Core/Base/BaseView.cs:65-71 | the view ends hidden; a visible view runs OnHide once and its game object is deactivated, a hidden one is untouched |
| BaseClasses.BaseView.Dispose | ScoreManagementClient/ScoreManagementClient/Assets/Scripts/Core/Base/BaseView.cs:83-88 | the protocol steps as Disposed says |
| BaseClasses.BaseView.OnDestroy | ScoreManagementClient/ScoreManagementClient/Assets/Scripts/Core/Base/BaseView.cs:97-100 | destroying the component disposes it |
| BaseClasses.ShowAfterCreation | ScoreManagementClient/ScoreManagementClient/Assets/Scripts/Core/Base/BaseView.cs:10-53 | a freshly created active view is visible and initialised, so Show does nothing until Hide has run |
| BaseClasses.HideThenShow | ScoreManagementClient/ScoreManagementClient/Assets/Scripts/Core/Base/BaseView.cs:47-71 | hiding then showing a visible view runs OnHide and OnShow once each and leaves it active, with its Awake run |
| BaseClasses.InactiveViewInitialisedOnShow | ScoreManagementClient/ScoreManagementClient/Assets/Scripts/Core/Base/BaseView.cs:9-71 | a view created inactive is initialised only by the Show that first activates it, and then exactly once |
| BaseClasses.EnableAfterCreation | ScoreManagementClient/ScoreManagementClient/Assets/Scripts/Core/Base/BaseController.cs:11-51 | a freshly created controller is enabled, so Enable does nothing until Disable has run |
| BaseClasses.DisposeBeforeInitialize | ScoreManagementClient/ScoreManagementClient/Assets/Scripts/Core/Base/BaseModel.cs:8-35 | disposing a model that was never initialised changes nothing |
| BaseClasses.ManagerCycle | ScoreManagementClient/ScoreManagementClient/Assets/Scripts/Core/Base/BaseManager.cs:17-45 | on a manager, Initialize, Dispose, Initialize after Awake leaves it initialised with OnInitialize run twice and OnDispose once |
| Ordering.SortDescBy | ScoreManagementServer/ScoreManagementServer/ScoreManagementServer/time_limit_exam_query.py:347 | the result is ordered by non-increasing key, is a permutation of the input, and keeps the input order within each key (stability) |
| Ordering.SortedIsUnique | ScoreManagementServer/ScoreManagementServer/ScoreManagementServer/time_limit_exam_query.py:347 | two sequences sorted by non-increasing key with the same order within each key are equal, so the stable sort has exactly one possible result |
| Ordering.StableSortDesc | ScoreManagementServer/ScoreManagementServer/ScoreManagementServer/time_limit_exam_query.py:347 | the insertion sort returns exactly SortDescBy of its input: sorted by non-increasing key, a permutation, stable |
| Common.Clamp | ScoreManagementClient/ScoreManagementClient/Assets/Scripts/Features/Physics/ExperimentManager.cs:199 | inside an ordered range the result lies in it and a value already inside is kept; below the minimum gives the minimum, else above the maximum gives the maximum |

## Left out

- I/O is outside the model. This covers SQLite and the SQL text, reading workbooks with openpyxl, plotting with matplotlib, console printing and `input()` menus, the ASP.NET and Unity network calls, and Unity's scene, transform, rendering and gizmo calls. Their results enter the model as input sequences or parameters, and their effects are recorded as fields.
- Floating-point rounding, NaN and infinity are not modelled, because every float, double and decimal is a mathematical `real`. Every real is finite, so the NaN and infinite angles on which NormalizeAngle's loops would never end cannot be passed. Nor does the model see the other float32 hang there: for a finite angle with |angle| ≥ 2^33, subtracting or adding 360 gives back the same float, so the source's loop never ends while the model's terminates.
- The clock (`Time.time`, `datetime.now`), `System.Random` and `UnityEngine.Random` are parameters. The random draws of GenerateRandomString, Shuffle and RandomItem are passed in, each required to lie in the source's range.
- Text is compared character by character, and Unicode case mapping and .NET culture-sensitive number parsing are outside the model. StringHelper's .NET patterns model `\d` as every decimal digit of the Basic Multilingual Plane and `$` as also matching before one final line break. Everywhere else only ASCII digits count as digits: Python's `str.isdigit` and the `\d` of the importers' and reports' patterns also accept other Unicode digits, which the model does not. The importers' `\d+$` is applied to stripped text, which ends in no line break.
- Text is a sequence of Unicode scalar values, while a C# string is a sequence of UTF-16 code units. A character beyond the Basic Multilingual Plane, such as an emoji, counts once in the model and twice in C#'s `string.Length`. Python's `len` counts as the model does.
- ScoreLogin.ValidateInput: the length checks count Unicode scalar values. A user name or password with characters beyond the Basic Multilingual Plane can be too short in the model and long enough in the source.
- ExtensionMethods.Truncate: lengths and the cut count Unicode scalar values, not UTF-16 code units, so the model never cuts between the two halves of a surrogate pair as `Substring` can.
- StringHelper.TruncateWithEllipsis: lengths and the cut count Unicode scalar values, not UTF-16 code units, so the model never cuts between the two halves of a surrogate pair as `Substring` can.
- Common.PyFloat: Python's `float()` also reads an exponent ("1e2"), underscores between digits ("1_0"), and "inf", "infinity" and "nan" in any case. The model reads only signed decimal numerals with an optional point, and takes every other text as not a number.
- TimeLimitImporter.ScoreOf: a score text such as "1e2" or "1_0" is taken as not a number, where the source stores 100.0 or 10.0. "inf" and "nan" are not reals and are likewise not read.
- TimeLimitImporter.TextRank: it covers rank texts that are signed decimal numerals. A rank text such as "1e2" is not read by `float()` in the model, where the source reads it as rank 100.
- ScoreApi.ParseNullableFloat: .NET `float.TryParse` also reads an exponent ("1e2"), thousands separators ("1,000"), "Infinity", "NaN" and the current culture's symbols. The model gives null for these.
- ExcelImport's score and rank cells go through Common.PyFloat, so the same forms are not read there either.
- The importers catch a database exception per row and count that row as failed. Database exceptions are not modelled, so every upsert succeeds.
- ClassRank.ClassRankSummary: improvements and declines are proved sorted by magnitude, stable and a permutation of the classified moves. The source sorts whole tuples, so ties of equal magnitude are broken by the remaining tuple fields, and that tie order is not modelled.
- StringHelper.RemoveSpecialCharacters: the contract states which characters are kept and that every kept character is allowed, not that their order is preserved. Its idempotence lemma is its partner.
- Transmission.BeltTransmission.UpdateTransmission (and FixedUpdate): they require a non-zero radius at every non-null driven wheel. With a zero radius the source divides a float by zero and drives the wheel with an infinite or NaN velocity.
- ExtensionMethods.Shuffle: a null list is not modelled, since a Dafny array cannot be null.
- The template rows of `GenerateCsvTemplate` are written as constants joined from their fields rather than as one literal string.
- StringHelper's FormatFileSize formats doubles and is not modelled. MD5Encrypt, Base64Encode, Base64Decode, ToByteArray and FromByteArray are foreign framework encodings and are not modelled either.
- ExtensionMethods' Transform, GameObject, Vector3 and Color helpers (FindDeepChild, Reset, GetOrAddComponent, SetX/SetY/SetZ, Round, RoundToDecimals, WithAlpha, ToHex) are Unity engine calls. So are the coroutine helpers. IsNullOrWhiteSpace relies on .NET's Unicode white-space table.
- MathHelper's wrappers over Mathf and System.Math are floating-point and trigonometric library calls. These are Abs, Min, Max, Sign, Round, Ceil, Truncate, Pow, Sqrt, Approximately, Repeat, PingPong, Distance, SqrDistance, Angle, SignedAngle, the degree/radian conversions, SmoothDamp and the Random* helpers.
- GameObjectPool instantiates and activates Unity game objects. Only the generic ObjectPool is modelled.
- DataLogger: ExportToJSON is JSON serialisation, StopRecording only logs, and Awake and OnDrawGizmos are engine wiring and drawing.
- ChartDrawing.SimpleChartDrawer.constructor: `_maxPoints` is a serialized `int`, while the model's `maxPoints` is a `nat`. A negative inspector value, with which the source keeps no value at all, is therefore not modelled.
- DataLogging.DataLogger.StartRecording: the source logs the target's name, so without a target it throws a NullReferenceException after clearing the buffer and resetting the clock. The model has no target there and always returns normally.
- SimpleChartDrawer's line renderer setup, x layout, colours and gizmo grid are rendering.
- EnergyCalculator's DisplayDebugInfo only logs. The transform and spring readings are parameters.
- BeltConveyorExperimentController: the status and data text of UpdateUI, ShowExperimentResults and ExportData are display and logging. InitializeExperiment's scene search is the Wiring parameter, which says which collaborators exist. InitializeUI's button listeners are engine wiring.
- ExperimentManager: GetAllObjectData reads PhysicsObject, which is not part of this model. LoadObjectData only logs, and the UpdateExperiment hook is empty. The singleton Instance is not modelled.
- BeltConveyor's trigonometric quantities are outside the model. These are GravityDownComponent, GravityNormalComponent, CriticalFrictionCoefficient and CalculateFrictionForce, all via sin/cos/tan. ApplyBeltForce's physics forces, the texture scrolling, SetPhysicsMaterial, GetBeltDirection and ShowPhysicsCalculations are engine calls.
- BeltTransmission's belt visual, gizmos and OnDestroy are rendering. The driver's measured spin is a parameter.
- PhysicsMaterialController: GetMaterial, ApplyToCollider and ApplyToAllColliders hand the material to Unity colliders. Where the material comes from (found on a collider or created) is not modelled, only that one exists.
- The LifecycleManager singleton (Instance, Awake, DontDestroyOnLoad) is engine plumbing. The registries, registration, unregistration and CleanupAll are modelled.
- BaseView: the order of the hook, the flag and SetActive within Show and Hide is not recorded. Only their combined effect is. Core/UI/BaseView.cs is not part of this model, while Core/Base/BaseView.cs is modelled as `BaseClasses.BaseView`. Unity calling OnEnable/OnDisable as engine messages is not modelled; only explicit Enable and Disable calls are.
- PlayerPrefs stands for Unity's engine store as a typed map. Saving it to disk is not modelled.
- The login controllers' network requests, JSON request parsing (HandleLoginRequest), SetServerUrl and the log-only success/failure handlers are outside the model. The service's callback result, and whether TestConnection's request throws, are parameters.
- The score client's Awake, Start, OnDestroy and NavigateToScoreQuery are scene wiring and navigation.
- ScoreApiService's ImportScoresFromCsv, ImportScoresFromBytes and GetExamList are network uploads and requests. Their CSV parsing is modelled.
- Pool.ReleasedInto: the reset action is modelled as a function giving the item's state after the reset, and that state is what is queued. This is right for a class T, where `_resetAction(item)` changes the very object that is then enqueued. It is wrong for a struct T, which `where T : new()` allows: the Action<T> then resets a copy, and the unreset item is queued.
- Pool.ObjectPool.Release: items are values, so aliasing is not modelled. For a class T the caller's own reference still points at the pooled object and sees the reset. For a struct T the model queues the reset state, whereas the source queues the item unchanged, as the line above says.
- Events.CastSucceeds: the .NET type hierarchy behind `as Action<T>` is a parameter, `refConvertible`. The model does not derive which reference conversions exist.
- ScoreApi.ReadAllLines: it breaks lines only at '\n'. `File.ReadAllLines` also breaks at "\r\n" and at a lone '\r'. CRLF files still parse the same, because each line is trimmed before parsing. A file broken only by '\r' is read as one line here, and so yields no record.

## Findings

| source | as written | input that shows it | evidently intended | confidence | as-written member | corrected member |
|---|---|---|---|---|---|---|
| ScoreManagementServer/ScoreManagementServer/excel_to_sqlite_v2.py:644-694 | The query_trend SELECT returns nine columns: SubjectName, ExamId, ExamName, ExamDate, Score, ClassRank, GradeRank, PrevScore and PrevClassRank. Each row is unpacked into eight names, so the unpacking raises ValueError. | Any student with at least one score, so that the query returns a row. | Unpack all nine columns and print each row's exam name, date, score, change and trend mark. | not executed | ExcelImport.TrendUnpackAlwaysFails | ExcelImport.TrendLineOf |
