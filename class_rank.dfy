// The class rank summary of the rank-trend tool: records grouped by student,
// the distribution of how many tests each student sat, each student's first
// and latest rank compared, the improved / declined / unchanged lists, the
// significant declines, and the two menu answers that pick the rank type and
// the decline threshold.

module ClassRank {
  import opened Common
  import opened Ordering

  /**
   * One row of the query: a student's rank in one test. `examDay` is the
   * ExamDate already read by `strptime`, as a day number, so that comparing
   * days compares dates.
   */
  datatype RankRecord = RankRecord(studentId: int, studentName: string, studentNumber: string,
                                   examName: string, examDay: int, rank: Option<int>)

  /** An entry of `students_data`: the name and number of the student's first row and all their rows. */
  datatype StudentGroup = StudentGroup(studentId: int, name: string, number: string, records: seq<RankRecord>)

  /** An entry of `improvements` or `declines`; `change` is the size of the move. */
  datatype Movement = Movement(change: int, name: string, number: string,
                               firstExam: string, firstRank: Option<int>,
                               lastExam: string, lastRank: Option<int>)

  datatype NameNumber = NameNumber(name: string, number: string)

  datatype Summary = Summary(groups: seq<StudentGroup>, distribution: map<int, int>,
                             improvements: seq<Movement>, declines: seq<Movement>, noChange: seq<NameNumber>,
                             significantDeclines: seq<Movement>, totalStudents: int, validStudents: int)

  // ---------------------------------------------------------------------------
  // Grouping by student, in order of first appearance
  // ---------------------------------------------------------------------------

  /** The distinct student ids, in the order they first appear (the dict's key order). */
  function Ids(scores: seq<RankRecord>): seq<int>
  {
    if |scores| == 0 then []
    else
      var ids := Ids(scores[..|scores| - 1]);
      var id := scores[|scores| - 1].studentId;
      if id in ids then ids else ids + [id]
  }

  /** A student's rows in arrival order. */
  function RecordsOf(scores: seq<RankRecord>, id: int): seq<RankRecord>
  {
    if |scores| == 0 then []
    else RecordsOf(scores[..|scores| - 1], id) + (if scores[|scores| - 1].studentId == id then [scores[|scores| - 1]] else [])
  }

  lemma SnocScores(scores: seq<RankRecord>, x: RankRecord)
    ensures Ids(scores + [x]) == if x.studentId in Ids(scores) then Ids(scores) else Ids(scores) + [x.studentId]
    ensures forall id :: RecordsOf(scores + [x], id) == RecordsOf(scores, id) + (if x.studentId == id then [x] else [])
  {
    assert (scores + [x])[..|scores|] == scores;
  }

  /** The ids are distinct, cover every row, and each names a student with at least one row. */
  lemma {:induction false} IdsAreTheStudents(scores: seq<RankRecord>)
    ensures forall i, j :: 0 <= i < j < |Ids(scores)| ==> Ids(scores)[i] != Ids(scores)[j]
    ensures forall r :: r in scores ==> r.studentId in Ids(scores)
    ensures forall id :: id in Ids(scores) <==> RecordsOf(scores, id) != []
  {
    if |scores| > 0 {
      var init, x := scores[..|scores| - 1], scores[|scores| - 1];
      assert scores == init + [x];
      IdsAreTheStudents(init);
      SnocScores(init, x);
    }
  }

  /** Every row of a student's group is one of the input rows and has that student's id. */
  lemma {:induction false} RecordsOfBelong(scores: seq<RankRecord>, id: int)
    ensures forall r :: r in RecordsOf(scores, id) ==> r in scores && r.studentId == id
  {
    if |scores| > 0 {
      RecordsOfBelong(scores[..|scores| - 1], id);
    }
  }

  /** The group of a student who has at least one row. */
  function GroupOf(scores: seq<RankRecord>, id: int): StudentGroup
    requires RecordsOf(scores, id) != []
  {
    var rs := RecordsOf(scores, id);
    StudentGroup(id, rs[0].studentName, rs[0].studentNumber, rs)
  }

  function GroupsOf(scores: seq<RankRecord>): seq<StudentGroup>
  {
    var ids := Ids(scores);
    IdsAreTheStudents(scores);
    seq(|ids|, i requires 0 <= i < |ids| => GroupOf(scores, ids[i]))
  }

  /** The grouping after the first `i` rows: the ids in first-seen order, and each student's group. */
  ghost predicate CollectedUpTo(scores: seq<RankRecord>, i: nat, order: seq<int>, data: map<int, StudentGroup>)
    requires i <= |scores|
  {
    && order == Ids(scores[..i])
    && (forall id :: id in data <==> id in order)
    && (forall id :: id in data ==> RecordsOf(scores[..i], id) != [] && data[id] == GroupOf(scores[..i], id))
  }

  /** Row `i` of a student not seen before starts that student's group with the row's name and number. */
  lemma CollectedNewStudent(scores: seq<RankRecord>, i: nat, order: seq<int>, data: map<int, StudentGroup>)
    requires i < |scores| && CollectedUpTo(scores, i, order, data) && scores[i].studentId !in data
    ensures var s := scores[i];
            CollectedUpTo(scores, i + 1, order + [s.studentId],
                          data[s.studentId := StudentGroup(s.studentId, s.studentName, s.studentNumber, [s])])
  {
    PrefixSnoc(scores, i);
    SnocScores(scores[..i], scores[i]);
    IdsAreTheStudents(scores[..i]);
  }

  /** Row `i` of a student already seen joins the end of that student's group. */
  lemma CollectedKnownStudent(scores: seq<RankRecord>, i: nat, order: seq<int>, data: map<int, StudentGroup>)
    requires i < |scores| && CollectedUpTo(scores, i, order, data) && scores[i].studentId in data
    ensures var s := scores[i];
            var g := data[s.studentId];
            CollectedUpTo(scores, i + 1, order, data[s.studentId := g.(records := g.records + [s])])
  {
    PrefixSnoc(scores, i);
    SnocScores(scores[..i], scores[i]);
  }

  /**
   * The grouping loop: `students_data` as a map from id to group plus its key
   * order. A new id starts a group with the row's name and number; every row
   * is appended to its student's group.
   */
  method GroupByStudent(scores: seq<RankRecord>) returns (groups: seq<StudentGroup>)
    ensures groups == GroupsOf(scores)
  {
    var order: seq<int> := [];
    var data: map<int, StudentGroup> := map[];
    var i := 0;
    while i < |scores|
      invariant 0 <= i <= |scores|
      invariant CollectedUpTo(scores, i, order, data)
    {
      var s := scores[i];
      if s.studentId in data {
        CollectedKnownStudent(scores, i, order, data);
        var g := data[s.studentId];
        data := data[s.studentId := g.(records := g.records + [s])];
      } else {
        CollectedNewStudent(scores, i, order, data);
        data := data[s.studentId := StudentGroup(s.studentId, s.studentName, s.studentNumber, [s])];
        order := order + [s.studentId];
      }
      i := i + 1;
    }
    CollectedAll(scores, order, data);
    groups := seq(|order|, k requires 0 <= k < |order| => data[order[k]]);
  }

  /** Once every row is taken, the groups in key order are exactly GroupsOf. */
  lemma CollectedAll(scores: seq<RankRecord>, order: seq<int>, data: map<int, StudentGroup>)
    requires CollectedUpTo(scores, |scores|, order, data)
    ensures |order| == |GroupsOf(scores)|
    ensures forall k :: 0 <= k < |order| ==> order[k] in data && data[order[k]] == GroupsOf(scores)[k]
  {
    assert scores[..|scores|] == scores;
    assert order == Ids(scores);
    assert forall id :: id in data <==> id in order;
    forall k | 0 <= k < |order|
      ensures order[k] in data && data[order[k]] == GroupsOf(scores)[k]
    {
      assert order[k] in order;
      assert data[order[k]] == GroupOf(scores, order[k]);
    }
  }

  // ---------------------------------------------------------------------------
  // How many tests each student sat
  // ---------------------------------------------------------------------------

  /** `exam_count_distribution`: for each count, how many students sat that many tests. */
  function Histogram(counts: seq<int>): map<int, int>
  {
    if |counts| == 0 then map[]
    else
      var h := Histogram(counts[..|counts| - 1]);
      var c := counts[|counts| - 1];
      h[c := (if c in h then h[c] else 0) + 1]
  }

  /** The distinct counts in order of first appearance: the key order of the distribution. */
  function DistinctInOrder(counts: seq<int>): seq<int>
  {
    if |counts| == 0 then []
    else
      var keys := DistinctInOrder(counts[..|counts| - 1]);
      var c := counts[|counts| - 1];
      if c in keys then keys else keys + [c]
  }

  /** The sum of `m`'s values at `keys`. */
  function TotalAt(m: map<int, int>, keys: seq<int>): int
    requires forall k :: k in keys ==> k in m
  {
    if |keys| == 0 then 0
    else
      var k := keys[|keys| - 1];
      assert k in keys;
      TotalAt(m, keys[..|keys| - 1]) + m[k]
  }

  /** Raising one value raises the total by the same amount when its key is listed once. */
  lemma {:induction false} TotalAtUpdate(m: map<int, int>, keys: seq<int>, c: int, v: int)
    requires forall k :: k in keys ==> k in m
    requires forall i, j :: 0 <= i < j < |keys| ==> keys[i] != keys[j]
    ensures TotalAt(m[c := v], keys) == TotalAt(m, keys) + (if c in keys then v - m[c] else 0)
  {
    if |keys| > 0 {
      var init := keys[..|keys| - 1];
      assert keys == init + [keys[|keys| - 1]];
      TotalAtUpdate(m, init, c, v);
    }
  }

  lemma TotalAtSnoc(m: map<int, int>, keys: seq<int>, c: int)
    requires forall k :: k in keys + [c] ==> k in m
    ensures TotalAt(m, keys + [c]) == TotalAt(m, keys) + m[c]
  {
    assert (keys + [c])[..|keys|] == keys;
  }

  /** The distribution has one key per distinct count. */
  lemma {:induction false} HistogramKeys(counts: seq<int>)
    ensures forall c :: c in Histogram(counts) <==> c in DistinctInOrder(counts)
  {
    if |counts| > 0 {
      HistogramKeys(counts[..|counts| - 1]);
    }
  }

  /** Each count is listed once. */
  lemma {:induction false} DistinctInOrderDistinct(counts: seq<int>)
    ensures forall i, j :: 0 <= i < j < |DistinctInOrder(counts)| ==> DistinctInOrder(counts)[i] != DistinctInOrder(counts)[j]
  {
    if |counts| > 0 {
      DistinctInOrderDistinct(counts[..|counts| - 1]);
    }
  }

  /** The values of the distribution add up to the number of students counted. */
  lemma {:induction false} HistogramTotal(counts: seq<int>)
    ensures forall c :: c in DistinctInOrder(counts) ==> c in Histogram(counts)
    ensures TotalAt(Histogram(counts), DistinctInOrder(counts)) == |counts|
  {
    HistogramKeys(counts);
    if |counts| > 0 {
      var init, c := counts[..|counts| - 1], counts[|counts| - 1];
      HistogramTotal(init);
      HistogramKeys(init);
      DistinctInOrderDistinct(init);
      var h, keys := Histogram(init), DistinctInOrder(init);
      var old_c := if c in h then h[c] else 0;
      var h' := h[c := old_c + 1];
      assert Histogram(counts) == h';
      TotalAtUpdate(h, keys, c, old_c + 1);
      if c in keys {
        assert DistinctInOrder(counts) == keys;
      } else {
        assert DistinctInOrder(counts) == keys + [c];
        TotalAtSnoc(h', keys, c);
      }
    }
  }

  function RecordCounts(groups: seq<StudentGroup>): (counts: seq<int>)
    ensures |counts| == |groups|
    ensures forall i :: 0 <= i < |groups| ==> counts[i] == |groups[i].records|
  {
    seq(|groups|, i requires 0 <= i < |groups| => |groups[i].records|)
  }

  /** The counting loop over `students_data`. */
  method CountDistribution(groups: seq<StudentGroup>) returns (dist: map<int, int>)
    ensures dist == Histogram(RecordCounts(groups))
  {
    dist := map[];
    var i := 0;
    while i < |groups|
      invariant 0 <= i <= |groups|
      invariant dist == Histogram(RecordCounts(groups)[..i])
    {
      var counts := RecordCounts(groups);
      assert counts[..i + 1][..i] == counts[..i];
      var examCount := |groups[i].records|;
      dist := dist[examCount := (if examCount in dist then dist[examCount] else 0) + 1];
      i := i + 1;
    }
    assert RecordCounts(groups)[..i] == RecordCounts(groups);
  }

  // ---------------------------------------------------------------------------
  // First against latest rank
  // ---------------------------------------------------------------------------

  /** The sort key that puts earlier tests first under a descending sort. */
  function Earliness(r: RankRecord): int { -r.examDay }

  /** `sorted(records, key=date)`: the stable ascending sort by date. */
  function Chronological(records: seq<RankRecord>): (sorted: seq<RankRecord>)
    ensures |sorted| == |records| && multiset(sorted) == multiset(records)
    ensures forall i, j :: 0 <= i < j < |sorted| ==> sorted[i].examDay <= sorted[j].examDay
  {
    var sorted := SortDescBy(records, Earliness);
    assert forall i, j :: 0 <= i < j < |sorted| ==> Earliness(sorted[i]) >= Earliness(sorted[j]);
    sorted
  }

  predicate Classified(g: StudentGroup) { |g.records| >= 2 }

  /** first rank - latest rank, a missing rank counting as 999; positive is an improvement. */
  function ChangeOf(g: StudentGroup): int
    requires Classified(g)
  {
    var records := Chronological(g.records);
    RankOr999(records[0].rank) - RankOr999(records[|records| - 1].rank)
  }

  function MovementOf(g: StudentGroup, change: int): Movement
    requires Classified(g)
  {
    var records := Chronological(g.records);
    Movement(change, g.name, g.number, records[0].examName, records[0].rank,
             records[|records| - 1].examName, records[|records| - 1].rank)
  }

  /** `improvements` before sorting. */
  function Improvements(groups: seq<StudentGroup>): seq<Movement>
  {
    if |groups| == 0 then []
    else
      var g := groups[|groups| - 1];
      Improvements(groups[..|groups| - 1]) + (if Classified(g) && ChangeOf(g) > 0 then [MovementOf(g, ChangeOf(g))] else [])
  }

  /** `declines` before sorting, each with the size of its fall. */
  function Declines(groups: seq<StudentGroup>): seq<Movement>
  {
    if |groups| == 0 then []
    else
      var g := groups[|groups| - 1];
      Declines(groups[..|groups| - 1]) + (if Classified(g) && ChangeOf(g) < 0 then [MovementOf(g, -ChangeOf(g))] else [])
  }

  function NoChange(groups: seq<StudentGroup>): seq<NameNumber>
  {
    if |groups| == 0 then []
    else
      var g := groups[|groups| - 1];
      NoChange(groups[..|groups| - 1]) + (if Classified(g) && ChangeOf(g) == 0 then [NameNumber(g.name, g.number)] else [])
  }

  /**
   * Each student with at least two rows lands in exactly one of the three
   * lists, and every move recorded is positive.
   */
  lemma {:induction false} ClassifiedOnce(groups: seq<StudentGroup>)
    ensures |Improvements(groups)| + |Declines(groups)| + |NoChange(groups)| == |Filter(groups, Classified)|
    ensures forall m :: m in Improvements(groups) ==> m.change > 0
    ensures forall m :: m in Declines(groups) ==> m.change > 0
  {
    if |groups| > 0 {
      ClassifiedOnce(groups[..|groups| - 1]);
    }
  }

  /** One more group adds at most one entry, at the end of its list. */
  lemma ClassifiedSnoc(groups: seq<StudentGroup>, i: nat)
    requires i < |groups|
    ensures var g := groups[i];
            && Improvements(groups[..i + 1]) ==
               Improvements(groups[..i]) + (if Classified(g) && ChangeOf(g) > 0 then [MovementOf(g, ChangeOf(g))] else [])
            && Declines(groups[..i + 1]) ==
               Declines(groups[..i]) + (if Classified(g) && ChangeOf(g) < 0 then [MovementOf(g, -ChangeOf(g))] else [])
            && NoChange(groups[..i + 1]) ==
               NoChange(groups[..i]) + (if Classified(g) && ChangeOf(g) == 0 then [NameNumber(g.name, g.number)] else [])
  {
    assert groups[..i + 1][..i] == groups[..i];
  }

  /** The classification loop. */
  method Classify(groups: seq<StudentGroup>) returns (improvements: seq<Movement>, declines: seq<Movement>, noChange: seq<NameNumber>)
    ensures improvements == Improvements(groups)
    ensures declines == Declines(groups)
    ensures noChange == NoChange(groups)
  {
    improvements, declines, noChange := [], [], [];
    var i := 0;
    while i < |groups|
      invariant 0 <= i <= |groups|
      invariant improvements == Improvements(groups[..i])
      invariant declines == Declines(groups[..i])
      invariant noChange == NoChange(groups[..i])
    {
      ClassifiedSnoc(groups, i);
      var g := groups[i];
      if |g.records| >= 2 {
        var change := ChangeOf(g);
        if change > 0 {
          improvements := improvements + [MovementOf(g, change)];
        } else if change < 0 {
          declines := declines + [MovementOf(g, -change)];
        } else {
          noChange := noChange + [NameNumber(g.name, g.number)];
        }
      }
      i := i + 1;
    }
    assert groups[..i] == groups;
  }

  function Magnitude(m: Movement): int { m.change }

  /** `[d for d in declines if d[0] >= decline_threshold]`. */
  function SignificantDeclines(declines: seq<Movement>, threshold: int): (r: seq<Movement>)
    ensures forall d :: d in r <==> d in declines && d.change >= threshold
    ensures SortedDescBy(declines, Magnitude) ==> SortedDescBy(r, Magnitude)
  {
    var keep := (d: Movement) => d.change >= threshold;
    FilterMembers(declines, keep);
    if SortedDescBy(declines, Magnitude) then
      FilterKeepsSorted(declines, keep, Magnitude);
      Filter(declines, keep)
    else
      Filter(declines, keep)
  }

  /** The mean move printed under the summary, when the list is not empty. */
  function MeanChange(ms: seq<Movement>): (mean: Option<real>)
    ensures mean.None? <==> |ms| == 0
  {
    if |ms| == 0 then None
    else Some(Sum(seq(|ms|, i requires 0 <= i < |ms| => ms[i].change as real)) / (|ms| as real))
  }

  /** A mean of positive moves is at least one place. */
  lemma MeanChangeAtLeastOne(ms: seq<Movement>)
    requires |ms| > 0
    requires forall m :: m in ms ==> m.change > 0
    ensures MeanChange(ms).Some? && MeanChange(ms).value >= 1.0
  {
    var xs := seq(|ms|, i requires 0 <= i < |ms| => ms[i].change as real);
    assert forall i :: 0 <= i < |xs| ==> 1.0 <= xs[i] by {
      forall i | 0 <= i < |xs| ensures 1.0 <= xs[i] { assert ms[i] in ms; }
    }
    SumAtLeast(xs, 1.0);
    QuotientAtLeastOne(Sum(xs), |ms| as real);
  }

  lemma QuotientAtLeastOne(total: real, n: real)
    requires n > 0.0 && total >= n * 1.0
    ensures total / n >= 1.0
  {
    assert total / n >= n / n;
  }

  // ---------------------------------------------------------------------------
  // The summary
  // ---------------------------------------------------------------------------

  /**
   * print_class_rank_summary without the printing: None when there are no
   * rows, otherwise the groups, the distribution, the three lists (the moves
   * sorted largest first), the significant declines and the two head counts.
   */
  method ClassRankSummary(scores: seq<RankRecord>, declineThreshold: int) returns (r: Option<Summary>)
    ensures r.None? <==> |scores| == 0
    ensures r.Some? ==>
      var s := r.value;
      && s.groups == GroupsOf(scores)
      && s.distribution == Histogram(RecordCounts(s.groups))
      && SortedDescBy(s.improvements, Magnitude) && multiset(s.improvements) == multiset(Improvements(s.groups))
      && SortedDescBy(s.declines, Magnitude) && multiset(s.declines) == multiset(Declines(s.groups))
      && s.noChange == NoChange(s.groups)
      && (forall d :: d in s.significantDeclines <==> d in s.declines && d.change >= declineThreshold)
      && s.totalStudents == |s.groups|
      && s.validStudents == |s.improvements| + |s.declines| + |s.noChange|
      && s.validStudents <= s.totalStudents
  {
    if |scores| == 0 {
      return None;
    }
    var groups := GroupByStudent(scores);
    var distribution := CountDistribution(groups);
    var improvements, declines, noChange := Classify(groups);
    ClassifiedOnce(groups);
    improvements := StableSortDesc(improvements, Magnitude);
    declines := StableSortDesc(declines, Magnitude);
    var significant := SignificantDeclines(declines, declineThreshold);
    var total := |groups|;
    var valid := |improvements| + |declines| + |noChange|;
    r := Some(Summary(groups, distribution, improvements, declines, noChange, significant, total, valid));
  }

  /** Every student grouped is counted once in the distribution. */
  lemma DistributionCountsEveryStudent(scores: seq<RankRecord>)
    ensures var counts := RecordCounts(GroupsOf(scores));
            && (forall c :: c in DistinctInOrder(counts) ==> c in Histogram(counts))
            && TotalAt(Histogram(counts), DistinctInOrder(counts)) == |Ids(scores)|
  {
    HistogramTotal(RecordCounts(GroupsOf(scores)));
  }

  // ---------------------------------------------------------------------------
  // Menu answers
  // ---------------------------------------------------------------------------

  datatype RankType = Grade | Class

  /** The stripped answer: empty, not all digits or "1" picks the grade rank; any other digits the class rank. */
  function RankTypeChoice(answer: string): (t: RankType)
    ensures t == Class <==> IsDigitString(StripPy(answer)) && StripPy(answer) != "1"
  {
    var choice := StripPy(answer);
    if |choice| == 0 || !IsDigitString(choice) then Grade
    else if choice == "1" then Grade
    else Class
  }

  /** The stripped answer read as a number when it is all digits, otherwise 5. */
  function DeclineThreshold(answer: string): (n: int)
    ensures n >= 0
    ensures !IsDigitString(StripPy(answer)) ==> n == 5
  {
    var text := StripPy(answer);
    if |text| > 0 && IsDigitString(text) then DigitsValue(text) else 5
  }

  /** Typing a number gives back that number as the threshold. */
  lemma DeclineThresholdReadsNumber(n: nat)
    ensures DeclineThreshold(NatToString(n)) == n
  {
    StripDigits(NatToString(n));
    NatToStringValue(n);
  }
}
