/**
 * The `reportData` aggregation of src/components/dashboard/reports-view.tsx:
 * the number of distinct recorded days, the overall present ratio, one
 * stat per roster student, and the stats ordered by attendance rate.
 */
module Reports {
  import opened Types
  import opened RecordLists

  /** One row of the per-student table. */
  datatype StudentStat = StudentStat(id: string, name: string, presentDays: nat, totalDays: nat)

  datatype ReportData = ReportData(overall: Ratio, studentStats: seq<StudentStat>)

  /** What the memo returns before the client has mounted, or when nothing is recorded. */
  const EmptyReport: ReportData := ReportData(Zero, [])

  /** A student's rate, `presentDays / totalDays`, or 0 with no days. */
  function Rate(st: StudentStat): (r: Ratio)
    ensures r.den > 0
    ensures st.totalDays == 0 ==> r == Zero
    ensures st.presentDays <= st.totalDays ==> AtMostWhole(r)
  {
    if st.totalDays > 0 then Ratio(st.presentDays, st.totalDays) else Zero
  }

  /** The number of positions holding a Present record of student `id`. */
  function PresentDaysOf(records: seq<AttendanceRecord>, id: string): nat
  {
    |set i: nat | i < |records| && records[i].studentId == id && records[i].status == Present|
  }

  /** The stat `students.map` builds for one student. */
  function StatFor(records: seq<AttendanceRecord>, s: Student, days: nat): (st: StudentStat)
    ensures st.id == s.id && st.name == s.name && st.totalDays == days
    ensures st.presentDays <= |records|
  {
    StudentStat(s.id, s.name, |Filter(Filter(records, OfStudent(s.id)), IsPresentRecord)|, days)
  }

  /** `filter(studentId).filter(Present).length` counts that student's Present records. */
  lemma StatForCounts(records: seq<AttendanceRecord>, s: Student, days: nat)
    ensures StatFor(records, s, days).presentDays == PresentDaysOf(records, s.id)
  {
    FilterFilter(records, OfStudent(s.id), IsPresentRecord);
    FilterLengthCountsIndices(records, Both(OfStudent(s.id), IsPresentRecord));
    assert Indices(records, Both(OfStudent(s.id), IsPresentRecord)) ==
      set i: nat | i < |records| && records[i].studentId == s.id && records[i].status == Present;
  }

  /** `students.map(...)`: one stat per roster student, in roster order. */
  function Stats(records: seq<AttendanceRecord>, students: seq<Student>, days: nat): (r: seq<StudentStat>)
    ensures |r| == |students|
    ensures forall i :: 0 <= i < |students| ==>
      r[i].id == students[i].id && r[i].name == students[i].name &&
      r[i].presentDays == PresentDaysOf(records, students[i].id) && r[i].totalDays == days
  {
    if students == [] then []
    else
      StatForCounts(records, students[0], days);
      [StatFor(records, students[0], days)] + Stats(records, students[1..], days)
  }

  /** Non-increasing by present days. */
  predicate PresentNonIncreasing(ss: seq<StudentStat>)
  {
    forall i, j :: 0 <= i < j < |ss| ==> ss[i].presentDays >= ss[j].presentDays
  }

  /** Puts `x` before the first stat with no more present days than it. */
  function InsertByPresent(x: StudentStat, sorted: seq<StudentStat>): (r: seq<StudentStat>)
    requires PresentNonIncreasing(sorted)
    ensures PresentNonIncreasing(r)
    ensures multiset(r) == multiset(sorted) + multiset{x}
  {
    if sorted == [] then [x]
    else if x.presentDays >= sorted[0].presentDays then
      ConsNonIncreasing(x, sorted);
      [x] + sorted
    else
      var rest := InsertByPresent(x, sorted[1..]);
      assert sorted == [sorted[0]] + sorted[1..];
      forall y | y in rest ensures sorted[0].presentDays >= y.presentDays {
        assert y in multiset(rest);
      }
      ConsNonIncreasing(sorted[0], rest);
      [sorted[0]] + rest
  }

  /** A head with at least as many present days as everything after it keeps the order. */
  lemma ConsNonIncreasing(h: StudentStat, rest: seq<StudentStat>)
    requires PresentNonIncreasing(rest)
    requires rest != [] ==> h.presentDays >= rest[0].presentDays
    ensures PresentNonIncreasing([h] + rest)
  {
  }

  /**
   * `sort((a, b) => b.percentage - a.percentage)`: a stable sort, highest
   * first. All stats share `totalDays`, so ordering by rate is ordering by
   * present days.
   */
  function SortByPresent(ss: seq<StudentStat>): (r: seq<StudentStat>)
    ensures PresentNonIncreasing(r)
    ensures multiset(r) == multiset(ss)
  {
    if ss == [] then []
    else
      assert ss == [ss[0]] + ss[1..];
      InsertByPresent(ss[0], SortByPresent(ss[1..]))
  }

  /** The roster entry a stat row shows. */
  function StudentOf(st: StudentStat): Student
  {
    Student(st.id, st.name)
  }

  /** The students a list of stats is about, in list order. */
  function StudentsOf(ss: seq<StudentStat>): (r: seq<Student>)
    ensures |r| == |ss|
  {
    if ss == [] then [] else [StudentOf(ss[0])] + StudentsOf(ss[1..])
  }

  lemma {:induction false} StudentsOfAppend(a: seq<StudentStat>, b: seq<StudentStat>)
    ensures StudentsOf(a + b) == StudentsOf(a) + StudentsOf(b)
  {
    if a != [] {
      assert (a + b)[1..] == a[1..] + b;
      StudentsOfAppend(a[1..], b);
    } else {
      assert a + b == b;
    }
  }

  /** Equal multisets of stats are about equal multisets of students. */
  lemma {:induction false} StudentsOfPermutation(a: seq<StudentStat>, b: seq<StudentStat>)
    requires multiset(a) == multiset(b)
    ensures multiset(StudentsOf(a)) == multiset(StudentsOf(b))
    decreases |a|
  {
    if a != [] {
      var x := a[0];
      assert x in multiset(b);
      var k :| 0 <= k < |b| && b[k] == x;
      var b' := b[..k] + b[k + 1..];
      assert b == b[..k] + [x] + b[k + 1..];
      assert a == [x] + a[1..];
      assert multiset(b) == multiset(b[..k]) + multiset{x} + multiset(b[k + 1..]);
      assert multiset(b') == multiset(b[..k]) + multiset(b[k + 1..]);
      assert multiset(a) == multiset{x} + multiset(a[1..]);
      forall y ensures multiset(a[1..])[y] == multiset(b')[y] {
        assert multiset(a)[y] == multiset(b)[y];
      }
      assert multiset(a[1..]) == multiset(b');
      StudentsOfPermutation(a[1..], b');
      StudentsOfAppend(b[..k] + [x], b[k + 1..]);
      StudentsOfAppend(b[..k], [x]);
      StudentsOfAppend(b[..k], b[k + 1..]);
      StudentsOfAppend([x], a[1..]);
    }
  }

  lemma {:induction false} StudentsOfStats(records: seq<AttendanceRecord>, students: seq<Student>, days: nat)
    ensures StudentsOf(Stats(records, students, days)) == students
  {
    if students != [] {
      StudentsOfStats(records, students[1..], days);
    }
  }

  /** The `reportData` memo. */
  function ReportDataOf(isClient: bool, records: seq<AttendanceRecord>, students: seq<Student>): (r: ReportData)
    ensures !isClient ==> r == EmptyReport
    ensures r != EmptyReport ==> isClient && |r.studentStats| == |students|
  {
    if !isClient then EmptyReport
    else
      var totalPossibleDays := |DateSet(records)|;
      if totalPossibleDays == 0 then EmptyReport
      else
        var totalPresents := |Filter(records, IsPresentRecord)|;
        var totalPossibleAttendances := |students| * totalPossibleDays;
        var overall := if totalPossibleAttendances > 0 then Ratio(totalPresents, totalPossibleAttendances) else Zero;
        var stats := Stats(records, students, totalPossibleDays);
        var sorted := SortByPresent(stats);
        assert |sorted| == |multiset(sorted)| == |multiset(stats)|;
        ReportData(overall, sorted)
  }

  /** Before mounting, and with no records at all, the report is empty. */
  lemma EmptyWithoutRecords(isClient: bool, records: seq<AttendanceRecord>, students: seq<Student>)
    requires !isClient || records == []
    ensures ReportDataOf(isClient, records, students) == EmptyReport
  {
  }

  /** Any record makes the day count positive, so the report is not the empty one. */
  lemma {:induction false} SomeRecordSomeDay(records: seq<AttendanceRecord>)
    requires records != []
    ensures |DateSet(records)| > 0
  {
    assert records[0].date in DateSet(records);
  }

  /** The sorted stats: what `reportData` lists on the client with something recorded. */
  function SortedStats(records: seq<AttendanceRecord>, students: seq<Student>): seq<StudentStat>
  {
    SortByPresent(Stats(records, students, |DateSet(records)|))
  }

  /** Every listed stat counts the distinct days and that student's Present records. */
  lemma SortedStatsCounts(records: seq<AttendanceRecord>, students: seq<Student>)
    ensures forall st :: st in SortedStats(records, students) ==>
      st.totalDays == |DateSet(records)| && st.presentDays == PresentDaysOf(records, st.id)
  {
    var unsorted := Stats(records, students, |DateSet(records)|);
    forall st | st in SortedStats(records, students)
      ensures st.totalDays == |DateSet(records)| && st.presentDays == PresentDaysOf(records, st.id)
    {
      assert st in multiset(unsorted);
    }
  }

  /** The listed stats are the roster rearranged: one row per roster entry. */
  lemma SortedStatsRoster(records: seq<AttendanceRecord>, students: seq<Student>)
    ensures |SortedStats(records, students)| == |students|
    ensures multiset(StudentsOf(SortedStats(records, students))) == multiset(students)
  {
    var unsorted := Stats(records, students, |DateSet(records)|);
    var stats := SortedStats(records, students);
    assert |multiset(stats)| == |multiset(unsorted)|;
    StudentsOfPermutation(stats, unsorted);
    StudentsOfStats(records, students, |DateSet(records)|);
  }

  /** Down the list, present days and rates never increase. */
  lemma SortedStatsByRate(records: seq<AttendanceRecord>, students: seq<Student>)
    ensures PresentNonIncreasing(SortedStats(records, students))
    ensures forall i, j :: 0 <= i < j < |SortedStats(records, students)| ==>
      RatioAtLeast(Rate(SortedStats(records, students)[i]), Rate(SortedStats(records, students)[j]))
  {
    var stats := SortedStats(records, students);
    SortedStatsCounts(records, students);
    forall i, j | 0 <= i < j < |stats| ensures RatioAtLeast(Rate(stats[i]), Rate(stats[j])) {
      assert stats[i] in stats && stats[j] in stats;
      MulMono(stats[j].presentDays, stats[i].presentDays, |DateSet(records)|);
    }
  }

  /**
   * On the client, with something recorded, the report lists the sorted
   * stats, and the overall ratio is all Present records over
   * `students × days`, or 0 for an empty roster.
   */
  lemma ReportSpec(records: seq<AttendanceRecord>, students: seq<Student>)
    requires records != []
    ensures ReportDataOf(true, records, students).studentStats == SortedStats(records, students)
    ensures ReportDataOf(true, records, students).overall ==
      if students == [] then Zero else Ratio(|Indices(records, IsPresentRecord)|, |students| * |DateSet(records)|)
  {
    SomeRecordSomeDay(records);
    FilterLengthCountsIndices(records, IsPresentRecord);
    if students != [] {
      MulPositive(|students|, |DateSet(records)|);
    }
  }

  lemma MulMono(a: nat, b: nat, c: nat)
    requires a <= b
    ensures a * c <= b * c
  {
  }

  lemma MulPositive(a: nat, b: nat)
    requires a > 0 && b > 0
    ensures a * b > 0
  {
  }

  /**
   * Under one record per (student, date), a student has at most one
   * Present record per recorded day, so no rate exceeds a hundred percent.
   */
  lemma {:induction false} PresentDaysAtMostTotalDays(records: seq<AttendanceRecord>, students: seq<Student>)
    requires OnePerStudentDay(records)
    ensures forall st :: st in ReportDataOf(true, records, students).studentStats ==>
      st.presentDays <= st.totalDays && AtMostWhole(Rate(st))
  {
    var days := |DateSet(records)|;
    if days > 0 {
      var unsorted := Stats(records, students, days);
      forall st | st in ReportDataOf(true, records, students).studentStats
        ensures st.presentDays <= st.totalDays
      {
        assert st in multiset(unsorted);
        var i :| 0 <= i < |unsorted| && unsorted[i] == st;
        OwnPresentRecordsBound(records, students[i].id);
        StatForCounts(records, students[i], days);
      }
    }
  }

  /** A student's Present records carry pairwise different dates, all recorded ones. */
  lemma OwnPresentRecordsBound(records: seq<AttendanceRecord>, id: string)
    requires OnePerStudentDay(records)
    ensures |Filter(Filter(records, OfStudent(id)), IsPresentRecord)| <= |DateSet(records)|
  {
    var own := Filter(records, OfStudent(id));
    var xs := Filter(own, IsPresentRecord);
    FilterKeepsOnePerStudentDay(records, OfStudent(id));
    FilterKeepsOnePerStudentDay(own, IsPresentRecord);
    var date := (r: AttendanceRecord) => r.date;
    forall i, j | 0 <= i < j < |xs| ensures date(xs[i]) != date(xs[j]) {
      assert xs[i] in own && xs[j] in own;
      assert !SameSlot(xs[i], xs[j]);
    }
    DistinctKeysBound(xs, date, DateSet(records));
  }
}
