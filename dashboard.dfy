/**
 * The counts the dashboard page (src/app/dashboard/page.tsx) derives from
 * the attendance log: present and absent for today, the same pair for each
 * day of a seven-day window, and today's attendance ratio. Today and the
 * window's dates come from the clock, so they are parameters here.
 */
module Dashboard {
  import opened Types
  import opened Strings
  import opened RecordLists

  /** Present and absent counts of one day; absent is `students.length - present`, not clamped. */
  datatype DayStats = DayStats(present: nat, absent: int)

  /** The number of positions holding a Present record dated `date`. */
  function PresentOn(records: seq<AttendanceRecord>, date: string): nat
  {
    |set i: nat | i < |records| && records[i].date == date && records[i].status == Present|
  }

  /** `filter(date).filter(Present).length`, and `students.length - present`. */
  function DayStatsOf(records: seq<AttendanceRecord>, studentCount: nat, date: string): (s: DayStats)
    ensures s.present == PresentOn(records, date)
    ensures s.present + s.absent == studentCount
  {
    var present := |Filter(Filter(records, OnDate(date)), IsPresentRecord)|;
    FilterFilter(records, OnDate(date), IsPresentRecord);
    FilterLengthCountsIndices(records, Both(OnDate(date), IsPresentRecord));
    assert Indices(records, Both(OnDate(date), IsPresentRecord)) ==
      set i: nat | i < |records| && records[i].date == date && records[i].status == Present;
    DayStats(present, studentCount - present)
  }

  /** `last7Days.map(...)`: one entry per window date, in window order. */
  function ChartData(records: seq<AttendanceRecord>, studentCount: nat, days: seq<string>): (r: seq<DayStats>)
    ensures |r| == |days|
    ensures forall i :: 0 <= i < |days| ==>
      r[i].present == PresentOn(records, days[i]) && r[i].present + r[i].absent == studentCount
  {
    if days == [] then [] else [DayStatsOf(records, studentCount, days[0])] + ChartData(records, studentCount, days[1..])
  }

  /** The window ends today, so the last bar shows exactly the numbers of the today cards. */
  lemma LastBarIsToday(records: seq<AttendanceRecord>, studentCount: nat, days: seq<string>, today: string)
    requires days != [] && days[|days| - 1] == today
    ensures ChartData(records, studentCount, days)[|days| - 1] == DayStatsOf(records, studentCount, today)
  {
  }

  /** The `last7Days` window the clock supplies: seven dates, oldest first, ending today. */
  predicate WeekEndingToday(days: seq<string>, today: string)
  {
    |days| == 7 && days[6] == today && forall i, j :: 0 <= i < j < |days| ==> Less(days[i], days[j])
  }

  /** Over such a window the chart has seven bars, one per date in window order, and the last shows today. */
  lemma WeekChart(records: seq<AttendanceRecord>, studentCount: nat, days: seq<string>, today: string)
    requires WeekEndingToday(days, today)
    ensures |ChartData(records, studentCount, days)| == 7
    ensures ChartData(records, studentCount, days)[6] == DayStatsOf(records, studentCount, today)
  {
  }

  /** `attendancePercentage`: today's present over the roster size, or 0 for an empty roster. */
  function AttendanceRatio(today: DayStats, totalStudents: nat): (r: Ratio)
    ensures totalStudents == 0 ==> r == Zero
    ensures totalStudents > 0 ==> r.num == today.present && r.den == totalStudents
  {
    if totalStudents > 0 then Ratio(today.present, totalStudents) else Zero
  }

  /** The ids on the roster. */
  function RosterIds(roster: seq<Student>): set<string>
  {
    set s | s in roster :: s.id
  }

  lemma {:induction false} RosterIdsCard(roster: seq<Student>)
    ensures |RosterIds(roster)| <= |roster|
  {
    if roster != [] {
      RosterIdsCard(roster[1..]);
      assert RosterIds(roster) == {roster[0].id} + RosterIds(roster[1..]) by {
        assert roster == [roster[0]] + roster[1..];
      }
    }
  }

  /**
   * When the log keeps one record per (student, date) and every record of
   * the day is for a roster student, the absent count is never negative and
   * the ratio is at most a hundred percent.
   */
  lemma AbsentNotNegative(records: seq<AttendanceRecord>, roster: seq<Student>, date: string)
    requires OnePerStudentDay(records)
    requires forall r :: r in records && r.date == date ==> r.studentId in RosterIds(roster)
    ensures DayStatsOf(records, |roster|, date).absent >= 0
    ensures AtMostWhole(AttendanceRatio(DayStatsOf(records, |roster|, date), |roster|))
  {
    var day := Filter(records, OnDate(date));
    var xs := Filter(day, IsPresentRecord);
    FilterKeepsOnePerStudentDay(records, OnDate(date));
    FilterKeepsOnePerStudentDay(day, IsPresentRecord);
    var id := (r: AttendanceRecord) => r.studentId;
    forall i, j | 0 <= i < j < |xs| ensures id(xs[i]) != id(xs[j]) {
      assert xs[i] in day && xs[j] in day;
      assert !SameSlot(xs[i], xs[j]);
    }
    DistinctKeysBound(xs, id, RosterIds(roster));
    RosterIdsCard(roster);
  }
}
