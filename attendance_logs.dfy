/**
 * The attendance log table of src/components/dashboard/attendance-logs-table.tsx:
 * the list of recorded dates, the date and student filters, the
 * newest-first sort, pagination at ten rows, the Previous/Next buttons and
 * the page reset when a filter changes.
 */
module AttendanceLogs {
  import opened Types
  import opened Strings
  import opened RecordLists
  import opened LocalStorage

  /** `RECORDS_PER_PAGE`. */
  const RecordsPerPage: nat := 10

  /** The select value that switches a filter off. */
  const AllFilter: string := "all"

  function Min(a: int, b: int): int { if a <= b then a else b }
  function Max(a: int, b: int): int { if a >= b then a else b }

  // ----- The list of recorded dates -----

  /** Strictly newest first, hence also free of repetitions. */
  predicate StrictlyDescending(ds: seq<string>)
  {
    forall i, j :: 0 <= i < j < |ds| ==> Less(ds[j], ds[i])
  }

  /** Adds one date to a strictly descending list, unless it is there already. */
  function InsertDate(d: string, ds: seq<string>): (r: seq<string>)
    requires StrictlyDescending(ds)
    ensures StrictlyDescending(r)
    ensures forall x :: x in r <==> x == d || x in ds
  {
    if ds == [] then [d]
    else if d == ds[0] then ds
    else if Less(ds[0], d) then
      assert forall k :: 0 <= k < |ds| ==> Less(ds[k], d) by {
        forall k | 0 < k < |ds| ensures Less(ds[k], d) {
          LessTransitive(ds[k], ds[0], d);
        }
      }
      [d] + ds
    else
      LessTotal(d, ds[0]);
      var rest := InsertDate(d, ds[1..]);
      assert forall x :: x in rest ==> Less(x, ds[0]) by {
        forall x | x in rest ensures Less(x, ds[0]) {
          if x != d {
            var k :| 0 <= k < |ds[1..]| && ds[1..][k] == x;
            assert ds[k + 1] == x;
          }
        }
      }
      [ds[0]] + rest
  }

  /** `uniqueDates`: every stored date exactly once, newest first. */
  function UniqueDates(records: seq<AttendanceRecord>): (r: seq<string>)
    ensures StrictlyDescending(r)
    ensures forall d :: d in r <==> d in DateSet(records)
  {
    if records == [] then []
    else
      var init := records[..|records| - 1];
      assert records == init + [records[|records| - 1]];
      InsertDate(records[|records| - 1].date, UniqueDates(init))
  }

  /**
   * A strictly descending listing of a set is unique, so the dates come
   * out the same whatever order the `Set` was filled in.
   */
  lemma {:induction false} StrictlyDescendingUnique(a: seq<string>, b: seq<string>)
    requires StrictlyDescending(a) && StrictlyDescending(b)
    requires forall x :: x in a <==> x in b
    ensures a == b
  {
    assert a != [] ==> a[0] in b;
    assert b != [] ==> b[0] in a;
    if a != [] && b != [] {
      assert a[0] in b && b[0] in a;
      if a[0] != b[0] {
        var i :| 0 <= i < |b| && b[i] == a[0];
        var j :| 0 <= j < |a| && a[j] == b[0];
        assert Less(a[0], b[0]) && Less(b[0], a[0]);
        LessAsymmetric(a[0], b[0]);
      }
      assert a == [a[0]] + a[1..] && b == [b[0]] + b[1..];
      forall x | x in a[1..] ensures x in b[1..] {
        var k :| 0 <= k < |a[1..]| && a[1..][k] == x;
        assert Less(a[k + 1], a[0]);
        LessIrreflexive(x);
        assert x in b && x != b[0];
      }
      forall x | x in b[1..] ensures x in a[1..] {
        var k :| 0 <= k < |b[1..]| && b[1..][k] == x;
        assert Less(b[k + 1], b[0]);
        LessIrreflexive(x);
        assert x in a && x != a[0];
      }
      StrictlyDescendingUnique(a[1..], b[1..]);
      assert a == [a[0]] + a[1..] && b == [b[0]] + b[1..];
    }
  }

  /** A list without repetitions has as many elements as its set. */
  lemma {:induction false} DistinctCardinality(ds: seq<string>)
    requires forall i, j :: 0 <= i < j < |ds| ==> ds[i] != ds[j]
    ensures |set x | x in ds| == |ds|
  {
    if ds != [] {
      var tail := ds[1..];
      forall i, j | 0 <= i < j < |tail| ensures tail[i] != tail[j] {
        assert tail[i] == ds[i + 1] && tail[j] == ds[j + 1];
      }
      DistinctCardinality(tail);
      assert (set x | x in ds) == {ds[0]} + (set x | x in tail) by {
        assert ds == [ds[0]] + tail;
      }
    }
  }

  /** The date select has one entry per distinct recorded day. */
  lemma UniqueDatesCount(records: seq<AttendanceRecord>)
    ensures |UniqueDates(records)| == |DateSet(records)|
  {
    var ds := UniqueDates(records);
    forall i, j | 0 <= i < j < |ds| ensures ds[i] != ds[j] {
      LessIrreflexive(ds[i]);
    }
    DistinctCardinality(ds);
    assert (set x | x in ds) == DateSet(records);
  }

  // ----- Filtering and sorting -----

  function DateFilterMatch(dateFilter: string): AttendanceRecord -> bool
  {
    (r: AttendanceRecord) => dateFilter == AllFilter || r.date == dateFilter
  }

  function StudentFilterMatch(studentFilter: string): AttendanceRecord -> bool
  {
    (r: AttendanceRecord) => studentFilter == AllFilter || r.studentId == studentFilter
  }

  /** Newest first; records of one day may come in any order. */
  predicate DateNonIncreasing(rs: seq<AttendanceRecord>)
  {
    forall i, j :: 0 <= i < j < |rs| ==> !Less(rs[i].date, rs[j].date)
  }

  /** Puts `x` before the first record that is not newer than it. */
  function InsertByDate(x: AttendanceRecord, sorted: seq<AttendanceRecord>): (r: seq<AttendanceRecord>)
    requires DateNonIncreasing(sorted)
    ensures DateNonIncreasing(r)
    ensures multiset(r) == multiset(sorted) + multiset{x}
  {
    if sorted == [] then [x]
    else if !Less(x.date, sorted[0].date) then
      assert forall k :: 0 <= k < |sorted| ==> !Less(x.date, sorted[k].date) by {
        forall k | 0 < k < |sorted| ensures !Less(x.date, sorted[k].date) {
          NotLessTransitive(x.date, sorted[0].date, sorted[k].date);
        }
      }
      [x] + sorted
    else
      var rest := InsertByDate(x, sorted[1..]);
      assert sorted == [sorted[0]] + sorted[1..];
      assert forall y :: y in rest ==> !Less(sorted[0].date, y.date) by {
        forall y | y in rest ensures !Less(sorted[0].date, y.date) {
          if y == x {
            LessAsymmetric(x.date, sorted[0].date);
          } else {
            assert y in multiset(rest);
            assert y in multiset(sorted[1..]);
            var k :| 0 <= k < |sorted[1..]| && sorted[1..][k] == y;
            assert sorted[k + 1] == y;
          }
        }
      }
      [sorted[0]] + rest
  }

  /** `sort((a, b) => b.date.localeCompare(a.date))`, a stable sort newest first. */
  function SortByDateDesc(rs: seq<AttendanceRecord>): (r: seq<AttendanceRecord>)
    ensures DateNonIncreasing(r)
    ensures multiset(r) == multiset(rs)
  {
    if rs == [] then []
    else
      assert rs == [rs[0]] + rs[1..];
      InsertByDate(rs[0], SortByDateDesc(rs[1..]))
  }

  lemma {:induction false} InsertByDateStable(x: AttendanceRecord, sorted: seq<AttendanceRecord>, d: string)
    requires DateNonIncreasing(sorted)
    ensures Filter(InsertByDate(x, sorted), OnDate(d)) == (if x.date == d then [x] else []) + Filter(sorted, OnDate(d))
  {
    if sorted == [] {
      assert InsertByDate(x, sorted) == [x];
    } else if !Less(x.date, sorted[0].date) {
      assert InsertByDate(x, sorted) == [x] + sorted;
      FilterAppend([x], sorted, OnDate(d));
    } else {
      var s0, tail := sorted[0], sorted[1..];
      assert DateNonIncreasing(tail);
      InsertByDateStable(x, tail, d);
      assert InsertByDate(x, sorted) == [s0] + InsertByDate(x, tail);
      assert sorted == [s0] + tail;
      FilterAppend([s0], InsertByDate(x, tail), OnDate(d));
      FilterAppend([s0], tail, OnDate(d));
      if x.date == d {
        LessIrreflexive(d);
        assert Filter([s0], OnDate(d)) == [];
      }
    }
  }

  /** The sort is stable: the records of any one day keep their stored order. */
  lemma {:induction false} SortByDateDescStable(rs: seq<AttendanceRecord>, d: string)
    ensures Filter(SortByDateDesc(rs), OnDate(d)) == Filter(rs, OnDate(d))
  {
    if rs != [] {
      SortByDateDescStable(rs[1..], d);
      InsertByDateStable(rs[0], SortByDateDesc(rs[1..]), d);
    }
  }

  /** What a record must satisfy to be listed: each filter is 'all' or equals the record's field. */
  predicate PassesFilters(x: AttendanceRecord, dateFilter: string, studentFilter: string)
  {
    (dateFilter == AllFilter || x.date == dateFilter) && (studentFilter == AllFilter || x.studentId == studentFilter)
  }

  /** `filteredRecords`: the date filter, then the student filter, then the sort. */
  function FilteredRecords(records: seq<AttendanceRecord>, dateFilter: string, studentFilter: string): (r: seq<AttendanceRecord>)
    ensures |r| <= |records|
  {
    var kept := Filter(Filter(records, DateFilterMatch(dateFilter)), StudentFilterMatch(studentFilter));
    var sorted := SortByDateDesc(kept);
    assert |sorted| == |multiset(sorted)| == |multiset(kept)| == |kept|;
    sorted
  }

  /**
   * The filtered list holds a record iff it passes both filters, holds each
   * passing record as often as the store does (a permutation of the kept
   * records), and is sorted newest first.
   */
  lemma FilteredRecordsSpec(records: seq<AttendanceRecord>, dateFilter: string, studentFilter: string)
    ensures forall x :: (x in FilteredRecords(records, dateFilter, studentFilter) <==>
      x in records && PassesFilters(x, dateFilter, studentFilter))
    ensures forall x :: (multiset(FilteredRecords(records, dateFilter, studentFilter))[x] ==
      if PassesFilters(x, dateFilter, studentFilter) then multiset(records)[x] else 0)
    ensures DateNonIncreasing(FilteredRecords(records, dateFilter, studentFilter))
  {
    var byDate := Filter(records, DateFilterMatch(dateFilter));
    forall x ensures multiset(FilteredRecords(records, dateFilter, studentFilter))[x] ==
      (if PassesFilters(x, dateFilter, studentFilter) then multiset(records)[x] else 0)
    {
      FilterMultiset(records, DateFilterMatch(dateFilter), x);
      FilterMultiset(byDate, StudentFilterMatch(studentFilter), x);
    }
    forall x ensures x in FilteredRecords(records, dateFilter, studentFilter) <==>
      x in records && PassesFilters(x, dateFilter, studentFilter)
    {
      assert x in FilteredRecords(records, dateFilter, studentFilter) <==> x in multiset(FilteredRecords(records, dateFilter, studentFilter));
    }
  }

  // ----- Pagination -----

  /** `Math.ceil(n / RECORDS_PER_PAGE)`. */
  function TotalPages(n: nat): (p: nat)
    ensures n <= p * RecordsPerPage
    ensures p > 0 ==> (p - 1) * RecordsPerPage < n
  {
    (n + RecordsPerPage - 1) / RecordsPerPage
  }

  /** How `Array.prototype.slice` resolves an index against a length: negative counts from the end, then clamp. */
  function SliceIndex(k: int, len: nat): (r: nat)
    ensures r <= len
  {
    if k < 0 then Max(len + k, 0) else Min(k, len)
  }

  /** `s.slice(start, end)`. */
  function Slice<T>(s: seq<T>, start: int, end: int): (r: seq<T>)
    ensures |r| <= |s|
    ensures forall x :: x in r ==> x in s
    ensures 0 <= start <= end <= |s| ==> r == s[start..end]
  {
    var a, b := SliceIndex(start, |s|), SliceIndex(end, |s|);
    if a < b then s[a..b] else []
  }

  /** `paginatedRecords` for a 1-based page number (any integer, as the state allows). */
  function PageRecords<T>(filtered: seq<T>, page: int): (r: seq<T>)
    ensures |r| <= RecordsPerPage
    ensures page >= 1 ==> r == filtered[Min((page - 1) * RecordsPerPage, |filtered|)..Min(page * RecordsPerPage, |filtered|)]
    ensures page == 0 ==> r == []
  {
    Slice(filtered, (page - 1) * RecordsPerPage, page * RecordsPerPage)
  }

  /** Pages 1 to `k`, one after the other. */
  function PagesUpTo<T>(filtered: seq<T>, k: nat): seq<T>
  {
    if k == 0 then [] else PagesUpTo(filtered, k - 1) + PageRecords(filtered, k)
  }

  lemma {:induction false} PagesUpToPrefix<T>(filtered: seq<T>, k: nat)
    ensures PagesUpTo(filtered, k) == filtered[..Min(k * RecordsPerPage, |filtered|)]
  {
    if k > 0 {
      PagesUpToPrefix(filtered, k - 1);
      var a, b := Min((k - 1) * RecordsPerPage, |filtered|), Min(k * RecordsPerPage, |filtered|);
      assert filtered[..b] == filtered[..a] + filtered[a..b];
    }
  }

  /** Pages 1 to `totalPages`, concatenated, are exactly the filtered list. */
  lemma PagesCoverFiltered<T>(filtered: seq<T>)
    ensures PagesUpTo(filtered, TotalPages(|filtered|)) == filtered
  {
    PagesUpToPrefix(filtered, TotalPages(|filtered|));
  }

  /** The Previous button's `Math.max(prev - 1, 1)`. */
  function PreviousPage(current: int): (r: int)
    ensures r >= 1
    ensures current > 1 ==> r == current - 1
    ensures current <= 1 ==> r == 1
  {
    Max(current - 1, 1)
  }

  /** The Next button's `Math.min(prev + 1, totalPages)`. */
  function NextPage(current: int, totalPages: nat): (r: int)
    ensures r <= totalPages
    ensures current < totalPages ==> r == current + 1
    ensures current >= totalPages ==> r == totalPages
  {
    Min(current + 1, totalPages)
  }

  /**
   * With nothing to show there are no pages, yet Next stays enabled on
   * page 1 (1 differs from 0) and moves to page 0, which shows no rows and
   * which Previous turns back into page 1.
   */
  lemma NextOnEmptyListGoesToPageZero(filtered: seq<AttendanceRecord>)
    requires filtered == []
    ensures TotalPages(|filtered|) == 0
    ensures 1 != TotalPages(|filtered|) && NextPage(1, TotalPages(|filtered|)) == 0
    ensures PageRecords(filtered, 0) == [] && PreviousPage(0) == 1
  {
  }

  // ----- Student names -----

  /** `new Map(roster.map(s => [s.id, s.name]))`: a later entry with the same id wins. */
  function StudentMap(roster: seq<Student>): (m: map<string, string>)
    ensures forall id :: id in m <==> exists i :: 0 <= i < |roster| && roster[i].id == id
    ensures roster != [] ==> m[roster[|roster| - 1].id] == roster[|roster| - 1].name
  {
    if roster == [] then map[]
    else
      var init := roster[..|roster| - 1];
      assert forall i :: 0 <= i < |init| ==> init[i] == roster[i];
      StudentMap(init)[roster[|roster| - 1].id := roster[|roster| - 1].name]
  }

  /** With distinct ids every student's id maps to that student's name. */
  lemma {:induction false} StudentMapDistinct(roster: seq<Student>)
    requires DistinctIds(roster)
    ensures forall i :: 0 <= i < |roster| ==> StudentMap(roster)[roster[i].id] == roster[i].name
  {
    if roster != [] {
      var init := roster[..|roster| - 1];
      assert DistinctIds(init) by {
        assert forall i :: 0 <= i < |init| ==> init[i] == roster[i];
      }
      StudentMapDistinct(init);
    }
  }

  /** `studentMap.get(id) || 'Unknown'`: an unknown id, or an empty name, shows as Unknown. */
  function DisplayName(studentMap: map<string, string>, id: string): (name: string)
    ensures id !in studentMap || studentMap[id] == "" ==> name == "Unknown"
    ensures id in studentMap && studentMap[id] != "" ==> name == studentMap[id]
  {
    if id in studentMap && studentMap[id] != "" then studentMap[id] else "Unknown"
  }

  /** A record whose student is not on the roster displays as Unknown. */
  lemma UnknownStudent(roster: seq<Student>, r: AttendanceRecord)
    requires forall s :: s in roster ==> s.id != r.studentId
    ensures DisplayName(StudentMap(roster), r.studentId) == "Unknown"
  {
  }

  // ----- The table's state -----

  class LogsTable {
    /** The `useLocalStorage('attendanceRecords', [])` hook the table reads. */
    const records: StorageHook<seq<AttendanceRecord>>
    var dateFilter: string
    var studentFilter: string
    var currentPage: int

    constructor (records: StorageHook<seq<AttendanceRecord>>)
      ensures this.records == records
      ensures dateFilter == AllFilter && studentFilter == AllFilter && currentPage == 1
    {
      this.records := records;
      dateFilter, studentFilter, currentPage := AllFilter, AllFilter, 1;
    }

    function Filtered(): (r: seq<AttendanceRecord>)
      reads this, records
      ensures |r| <= |records.storedValue|
    {
      FilteredRecords(records.storedValue, dateFilter, studentFilter)
    }

    function PageCount(): (p: nat)
      reads this, records
      ensures |Filtered()| <= p * RecordsPerPage
      ensures p > 0 ==> (p - 1) * RecordsPerPage < |Filtered()|
    {
      TotalPages(|Filtered()|)
    }

    /** The rows on screen. */
    function Visible(): (rows: seq<AttendanceRecord>)
      reads this, records
      ensures |rows| <= RecordsPerPage
    {
      PageRecords(Filtered(), currentPage)
    }

    /** Previous is disabled on page 1; clicking it steps back but never below page 1. */
    method Previous()
      modifies this
      ensures currentPage == if old(currentPage) == 1 then 1 else PreviousPage(old(currentPage))
      ensures currentPage >= 1
      ensures dateFilter == old(dateFilter) && studentFilter == old(studentFilter)
    {
      if currentPage != 1 {
        currentPage := PreviousPage(currentPage);
      }
    }

    /** Next is disabled on the last page; clicking it steps forward but never past `totalPages`. */
    method Next()
      modifies this
      ensures currentPage == if old(currentPage) == old(PageCount()) then old(currentPage) else NextPage(old(currentPage), old(PageCount()))
      ensures currentPage <= PageCount()
      ensures dateFilter == old(dateFilter) && studentFilter == old(studentFilter)
    {
      if currentPage != PageCount() {
        currentPage := NextPage(currentPage, PageCount());
      }
    }

    /** Choosing a date; the effect on `[dateFilter, studentFilter]` puts the table back on page 1 when the value changed. */
    method SelectDate(f: string)
      modifies this
      ensures dateFilter == f && studentFilter == old(studentFilter)
      ensures currentPage == if f != old(dateFilter) then 1 else old(currentPage)
    {
      if f != dateFilter {
        dateFilter := f;
        currentPage := 1;
      }
    }

    /** Choosing a student; the same page reset applies. */
    method SelectStudent(f: string)
      modifies this
      ensures studentFilter == f && dateFilter == old(dateFilter)
      ensures currentPage == if f != old(studentFilter) then 1 else old(currentPage)
    {
      if f != studentFilter {
        studentFilter := f;
        currentPage := 1;
      }
    }
  }
}
