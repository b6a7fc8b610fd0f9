/**
 * Operations on the stored list of attendance records that several views
 * share: `Array.prototype.filter` over records, the record predicates the
 * views filter by, the set of recorded dates, and the intended
 * one-record-per-(student, date) invariant.
 */
module RecordLists {
  import opened Types

  /** Keeps, in their original order, the records that satisfy `p`. */
  function Filter(rs: seq<AttendanceRecord>, p: AttendanceRecord -> bool): (r: seq<AttendanceRecord>)
    ensures |r| <= |rs|
    ensures forall x :: x in r <==> x in rs && p(x)
  {
    if rs == [] then [] else (if p(rs[0]) then [rs[0]] else []) + Filter(rs[1..], p)
  }

  // The record predicates the views filter by.

  function OnDate(date: string): AttendanceRecord -> bool
  {
    (r: AttendanceRecord) => r.date == date
  }

  function OnOtherDay(date: string): AttendanceRecord -> bool
  {
    (r: AttendanceRecord) => r.date != date
  }

  function OfStudent(id: string): AttendanceRecord -> bool
  {
    (r: AttendanceRecord) => r.studentId == id
  }

  predicate IsPresentRecord(r: AttendanceRecord)
  {
    r.status == Present
  }

  /** Both predicates at once. */
  function Both(p: AttendanceRecord -> bool, q: AttendanceRecord -> bool): AttendanceRecord -> bool
  {
    (r: AttendanceRecord) => p(r) && q(r)
  }

  /** Two filters in a row are one filter by the conjunction. */
  lemma {:induction false} FilterFilter(rs: seq<AttendanceRecord>, p: AttendanceRecord -> bool, q: AttendanceRecord -> bool)
    ensures Filter(Filter(rs, p), q) == Filter(rs, Both(p, q))
  {
    if rs != [] {
      FilterFilter(rs[1..], p, q);
      var head := if p(rs[0]) then [rs[0]] else [];
      FilterAppend(head, Filter(rs[1..], p), q);
      if p(rs[0]) {
        assert Filter(head, q) == (if q(rs[0]) then [rs[0]] else []) + Filter([], q);
      }
    }
  }

  /** Filtering distributes over concatenation: order across the two parts is kept. */
  lemma {:induction false} FilterAppend(a: seq<AttendanceRecord>, b: seq<AttendanceRecord>, p: AttendanceRecord -> bool)
    ensures Filter(a + b, p) == Filter(a, p) + Filter(b, p)
  {
    if a != [] {
      assert (a + b)[0] == a[0];
      assert (a + b)[1..] == a[1..] + b;
      FilterAppend(a[1..], b, p);
      assert Filter(a + b, p) == (if p(a[0]) then [a[0]] else []) + Filter(a[1..] + b, p);
    } else {
      assert a + b == b;
    }
  }

  /** Filtering keeps every copy of a passing record and no copy of a failing one. */
  lemma {:induction false} FilterMultiset(rs: seq<AttendanceRecord>, p: AttendanceRecord -> bool, x: AttendanceRecord)
    ensures multiset(Filter(rs, p))[x] == if p(x) then multiset(rs)[x] else 0
  {
    if rs != [] {
      FilterMultiset(rs[1..], p, x);
      assert rs == [rs[0]] + rs[1..];
    }
  }

  /** A filter that every record passes returns the list itself. */
  lemma {:induction false} FilterKeepsAll(rs: seq<AttendanceRecord>, p: AttendanceRecord -> bool)
    requires forall x :: x in rs ==> p(x)
    ensures Filter(rs, p) == rs
  {
    if rs != [] {
      FilterKeepsAll(rs[1..], p);
    }
  }

  /** A filter that no record passes returns the empty list. */
  lemma FilterDropsAll(rs: seq<AttendanceRecord>, p: AttendanceRecord -> bool)
    requires forall x :: x in rs ==> !p(x)
    ensures Filter(rs, p) == []
  {
  }

  /** The indices of the records that satisfy `p`. */
  function Indices(rs: seq<AttendanceRecord>, p: AttendanceRecord -> bool): set<nat>
  {
    set i: nat | i < |rs| && p(rs[i])
  }

  /** `filter(p).length` is the number of positions whose record satisfies `p`. */
  lemma {:induction false} FilterLengthCountsIndices(rs: seq<AttendanceRecord>, p: AttendanceRecord -> bool)
    ensures |Filter(rs, p)| == |Indices(rs, p)|
    decreases |rs|
  {
    if rs != [] {
      var init, last := rs[..|rs| - 1], rs[|rs| - 1];
      assert rs == init + [last];
      FilterAppend(init, [last], p);
      FilterLengthCountsIndices(init, p);
      assert Filter([last], p) == (if p(last) then [last] else []) + Filter([], p);
      IndicesSnoc(init, last, p);
    }
  }

  lemma IndicesSnoc(init: seq<AttendanceRecord>, last: AttendanceRecord, p: AttendanceRecord -> bool)
    ensures |Indices(init + [last], p)| == |Indices(init, p)| + (if p(last) then 1 else 0)
  {
    var rs, n := init + [last], |init|;
    assert forall i :: 0 <= i < n ==> rs[i] == init[i];
    if p(last) {
      assert Indices(rs, p) == Indices(init, p) + {n};
    } else {
      assert Indices(rs, p) == Indices(init, p);
    }
  }

  /** The dates on which anything was recorded. */
  function DateSet(rs: seq<AttendanceRecord>): set<string>
  {
    set r | r in rs :: r.date
  }

  /** Two records occupy the same slot when they are for the same student on the same day. */
  predicate SameSlot(a: AttendanceRecord, b: AttendanceRecord)
  {
    a.studentId == b.studentId && a.date == b.date
  }

  /** The intended invariant of the store: at most one record per (studentId, date). */
  predicate OnePerStudentDay(rs: seq<AttendanceRecord>)
  {
    forall i, j :: 0 <= i < j < |rs| ==> !SameSlot(rs[i], rs[j])
  }

  /** Roster ids are pairwise distinct. */
  predicate DistinctIds(roster: seq<Student>)
  {
    forall i, j :: 0 <= i < j < |roster| ==> roster[i].id != roster[j].id
  }

  lemma OnePerConcat(a: seq<AttendanceRecord>, b: seq<AttendanceRecord>)
    requires OnePerStudentDay(a) && OnePerStudentDay(b)
    requires forall x, y :: x in a && y in b ==> !SameSlot(x, y)
    ensures OnePerStudentDay(a + b)
  {
  }

  /** Filtering never breaks the one-record-per-slot invariant. */
  lemma {:induction false} FilterKeepsOnePerStudentDay(rs: seq<AttendanceRecord>, p: AttendanceRecord -> bool)
    requires OnePerStudentDay(rs)
    ensures OnePerStudentDay(Filter(rs, p))
  {
    if rs != [] {
      var tail := rs[1..];
      forall i, j | 0 <= i < j < |tail| ensures !SameSlot(tail[i], tail[j]) {
        assert tail[i] == rs[i + 1] && tail[j] == rs[j + 1];
      }
      FilterKeepsOnePerStudentDay(tail, p);
      forall x, y | x in (if p(rs[0]) then [rs[0]] else []) && y in Filter(tail, p) ensures !SameSlot(x, y) {
        var k :| 0 <= k < |tail| && tail[k] == y;
        assert rs[k + 1] == y;
      }
      OnePerConcat(if p(rs[0]) then [rs[0]] else [], Filter(tail, p));
    }
  }

  /** The set of keys the records of `xs` carry under `key`. */
  function KeySet(xs: seq<AttendanceRecord>, key: AttendanceRecord -> string): set<string>
  {
    set x | x in xs :: key(x)
  }

  /** Records with pairwise different keys, all drawn from `s`, are at most `|s|` many. */
  lemma {:induction false} DistinctKeysBound(xs: seq<AttendanceRecord>, key: AttendanceRecord -> string, s: set<string>)
    requires forall i, j :: 0 <= i < j < |xs| ==> key(xs[i]) != key(xs[j])
    requires KeySet(xs, key) <= s
    ensures |xs| <= |s|
  {
    DistinctKeysCount(xs, key);
    assert |KeySet(xs, key)| <= |s| by {
      SubsetCard(KeySet(xs, key), s);
    }
  }

  lemma {:induction false} DistinctKeysCount(xs: seq<AttendanceRecord>, key: AttendanceRecord -> string)
    requires forall i, j :: 0 <= i < j < |xs| ==> key(xs[i]) != key(xs[j])
    ensures |KeySet(xs, key)| == |xs|
  {
    if xs != [] {
      var tail := xs[1..];
      forall i, j | 0 <= i < j < |tail| ensures key(tail[i]) != key(tail[j]) {
        assert tail[i] == xs[i + 1] && tail[j] == xs[j + 1];
      }
      DistinctKeysCount(tail, key);
      assert KeySet(xs, key) == {key(xs[0])} + KeySet(tail, key) by {
        assert xs == [xs[0]] + tail;
      }
    }
  }

  lemma {:induction false} SubsetCard<T>(a: set<T>, b: set<T>)
    requires a <= b
    ensures |a| <= |b|
    decreases |a|
  {
    if a != {} {
      var x :| x in a;
      SubsetCard(a - {x}, b - {x});
    }
  }

  /** An injective image of a finite set of positions is as large as the set. */
  lemma {:induction false} InjectiveImageCard(s: set<nat>, f: nat -> nat)
    requires forall a, b :: a in s && b in s && a != b ==> f(a) != f(b)
    ensures |set a | a in s :: f(a)| == |s|
    decreases |s|
  {
    if s != {} {
      var x :| x in s;
      InjectiveImageCard(s - {x}, f);
      assert (set a | a in s :: f(a)) == (set a | a in s - {x} :: f(a)) + {f(x)};
    }
  }

  /** A set of positions below `n` has at most `n` elements. */
  lemma {:induction false} BoundedCard(s: set<nat>, n: nat)
    requires forall k :: k in s ==> k < n
    ensures |s| <= n
  {
    if s != {} {
      var x :| x in s;
      assert x < n;
      BoundedCard(s - {n - 1}, n - 1);
      assert |s| <= |s - {n - 1}| + 1;
    }
  }

  /** A set mapped injectively below `n` has at most `n` elements. */
  lemma InjectiveBound(s: set<nat>, f: nat -> nat, n: nat)
    requires forall a, b :: a in s && b in s && a != b ==> f(a) != f(b)
    requires forall a :: a in s ==> f(a) < n
    ensures |s| <= n
  {
    InjectiveImageCard(s, f);
    BoundedCard(set a | a in s :: f(a), n);
  }
}
