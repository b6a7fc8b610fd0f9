/**
 * The attendance capture form of src/components/dashboard/attendance-form.tsx:
 * turning a recognition result into one record per roster student for
 * today, the day-replacing merge into the stored log, and the review state
 * (selected file, preview, loading flag, result, error) the handlers update.
 */
module AttendanceForm {
  import opened Types
  import opened Strings
  import opened RecordLists
  import opened LocalStorage

  /** Storage key of the attendance log. */
  const RecordsKey: string := "attendanceRecords"

  /** Text shown when the recognition call fails. */
  const RecognitionFailedMessage: string := "Failed to process the image. Please try again."

  /** `attendedStudents.some(a => name.toLowerCase() === a.toLowerCase())`. */
  function IsPresent(name: string, attended: seq<string>): (b: bool)
    ensures b <==> exists k :: 0 <= k < |attended| && Lower(attended[k]) == Lower(name)
  {
    if attended == [] then false
    else
      assert forall k :: 0 < k < |attended| ==> attended[k] == attended[1..][k - 1];
      Lower(name) == Lower(attended[0]) || IsPresent(name, attended[1..])
  }

  /** The record the form builds for one roster student. */
  function RecordFor(student: Student, attended: seq<string>, today: string): (r: AttendanceRecord)
    ensures r.date == today && r.studentId == student.id
    ensures r.status == Present <==> exists k :: 0 <= k < |attended| && Lower(attended[k]) == Lower(student.name)
  {
    AttendanceRecord(today, student.id, if IsPresent(student.name, attended) then Present else Absent)
  }

  /** `newRecords`: one record per roster student, in roster order, all dated today. */
  function NewRecords(roster: seq<Student>, attended: seq<string>, today: string): (r: seq<AttendanceRecord>)
    ensures |r| == |roster|
    ensures forall i :: 0 <= i < |roster| ==> r[i].date == today && r[i].studentId == roster[i].id
    ensures forall i :: 0 <= i < |roster| ==>
      (r[i].status == Present <==> exists k :: 0 <= k < |attended| && Lower(attended[k]) == Lower(roster[i].name))
  {
    if roster == [] then [] else [RecordFor(roster[0], attended, today)] + NewRecords(roster[1..], attended, today)
  }

  /** No two roster names are equal once lower-cased, so every attended name picks out at most one student. */
  predicate UnambiguousNames(roster: seq<Student>)
  {
    forall i, j :: 0 <= i < j < |roster| ==> Lower(roster[i].name) != Lower(roster[j].name)
  }

  /** The first position of an attended name matching `name`, or `|attended|` when none does. */
  function FirstMatch(name: string, attended: seq<string>): (k: nat)
    ensures k <= |attended|
    ensures k < |attended| ==> Lower(attended[k]) == Lower(name)
    ensures k == |attended| <==> !IsPresent(name, attended)
  {
    if attended == [] then 0
    else if Lower(name) == Lower(attended[0]) then 0
    else 1 + FirstMatch(name, attended[1..])
  }

  /** Two different present students are matched by different attended names. */
  lemma MatchInjective(roster: seq<Student>, attended: seq<string>, a: nat, b: nat)
    requires UnambiguousNames(roster)
    requires a < |roster| && b < |roster| && a != b
    requires IsPresent(roster[a].name, attended) && IsPresent(roster[b].name, attended)
    ensures FirstMatch(roster[a].name, attended) != FirstMatch(roster[b].name, attended)
  {
  }

  /** A Present record of the new list belongs to a roster student some attended name matches. */
  lemma PresentIndices(roster: seq<Student>, attended: seq<string>, today: string)
    ensures forall i :: i in Indices(NewRecords(roster, attended, today), IsPresentRecord) ==>
      i < |roster| && IsPresent(roster[i].name, attended)
  {
  }

  /**
   * With unambiguous roster names each attended name marks at most one
   * student, so no more students are marked Present than names came back.
   */
  lemma PresentAtMostAttended(roster: seq<Student>, attended: seq<string>, today: string)
    requires UnambiguousNames(roster)
    ensures |Indices(NewRecords(roster, attended, today), IsPresentRecord)| <= |attended|
  {
    var present := Indices(NewRecords(roster, attended, today), IsPresentRecord);
    PresentIndices(roster, attended, today);
    var f := (i: nat) => if i < |roster| then FirstMatch(roster[i].name, attended) else 0;
    forall a, b | a in present && b in present && a != b ensures f(a) != f(b) {
      MatchInjective(roster, attended, a, b);
    }
    forall i | i in present ensures f(i) < |attended| {
      assert IsPresent(roster[i].name, attended);
    }
    InjectiveBound(present, f, |attended|);
  }

  /** The stored list after a save: the other days' records, then today's new records. */
  function SaveMerge(records: seq<AttendanceRecord>, roster: seq<Student>, attended: seq<string>, today: string): (r: seq<AttendanceRecord>)
    ensures |r| <= |records| + |roster|
    ensures forall x :: x in r ==> (x in records && x.date != today) || (x.date == today && x.studentId in set s | s in roster :: s.id)
  {
    Filter(records, OnOtherDay(today)) + NewRecords(roster, attended, today)
  }

  /** Filtering on "same day" and its complement split a list. */
  lemma {:induction false} NewRecordsAllToday(roster: seq<Student>, attended: seq<string>, today: string)
    ensures Filter(NewRecords(roster, attended, today), OnOtherDay(today)) == []
    ensures Filter(NewRecords(roster, attended, today), OnDate(today)) == NewRecords(roster, attended, today)
  {
    var nr := NewRecords(roster, attended, today);
    FilterDropsAll(nr, OnOtherDay(today));
    FilterKeepsAll(nr, OnDate(today));
  }

  /**
   * The save replaces today and keeps every other day: the other-day
   * records are exactly the old other-day records in their old order, the
   * records for today are exactly the new ones, and the length adds up.
   */
  lemma SaveReplacesToday(records: seq<AttendanceRecord>, roster: seq<Student>, attended: seq<string>, today: string)
    ensures Filter(SaveMerge(records, roster, attended, today), OnOtherDay(today)) == Filter(records, OnOtherDay(today))
    ensures Filter(SaveMerge(records, roster, attended, today), OnDate(today)) == NewRecords(roster, attended, today)
    ensures |SaveMerge(records, roster, attended, today)| == |Filter(records, OnOtherDay(today))| + |roster|
    ensures forall x :: x in SaveMerge(records, roster, attended, today) && x.date != today <==> x in records && x.date != today
  {
    var other, nr := Filter(records, OnOtherDay(today)), NewRecords(roster, attended, today);
    FilterAppend(other, nr, OnOtherDay(today));
    FilterAppend(other, nr, OnDate(today));
    NewRecordsAllToday(roster, attended, today);
    FilterKeepsAll(other, OnOtherDay(today));
    FilterDropsAll(other, OnDate(today));
  }

  /** Saving the same result twice on the same day stores what saving once does. */
  lemma SaveIdempotent(records: seq<AttendanceRecord>, roster: seq<Student>, attended: seq<string>, today: string)
    ensures SaveMerge(SaveMerge(records, roster, attended, today), roster, attended, today)
         == SaveMerge(records, roster, attended, today)
  {
    SaveReplacesToday(records, roster, attended, today);
  }

  /** With distinct roster ids, the save keeps at most one record per (student, date). */
  lemma SaveKeepsOnePerStudentDay(records: seq<AttendanceRecord>, roster: seq<Student>, attended: seq<string>, today: string)
    requires DistinctIds(roster)
    requires OnePerStudentDay(records)
    ensures OnePerStudentDay(SaveMerge(records, roster, attended, today))
  {
    var other, nr := Filter(records, OnOtherDay(today)), NewRecords(roster, attended, today);
    FilterKeepsOnePerStudentDay(records, OnOtherDay(today));
    assert OnePerStudentDay(nr);
    forall x, y | x in other && y in nr ensures !SameSlot(x, y) {
      var k :| 0 <= k < |nr| && nr[k] == y;
    }
    OnePerConcat(other, nr);
  }

  /** The example of a two-student roster with one case-mismatched match. */
  lemma TwoStudentExample()
    ensures SaveMerge([], [Student("S001", "Aarav Sharma"), Student("S002", "Diya Patel")], ["aarav sharma"], "2024-05-01")
         == [AttendanceRecord("2024-05-01", "S001", Present), AttendanceRecord("2024-05-01", "S002", Absent)]
  {
  }

  /** The photo the user picked; its content is opaque here. */
  datatype Photo = Photo(name: string)

  /** How the awaited recognition call ended. */
  datatype Recognition = Recognized(output: RecognitionResult) | RecognitionFailed

  class Form {
    var file: Option<Photo>
    var preview: Option<string>
    var isLoading: bool
    var result: Option<RecognitionResult>
    var error: Option<string>
    /** The `useLocalStorage("attendanceRecords", [])` hook. */
    const records: StorageHook<seq<AttendanceRecord>>

    constructor (records: StorageHook<seq<AttendanceRecord>>)
      ensures this.records == records
      ensures file == None && preview == None && !isLoading && result == None && error == None
    {
      this.records := records;
      file, preview, isLoading, result, error := None, None, false, None, None;
    }

    /** `handleFileChange`: a selected file replaces the old one and clears result and error; the preview follows when read. */
    method FileChange(selected: Option<Photo>)
      modifies this
      ensures selected == None ==> file == old(file) && result == old(result) && error == old(error)
      ensures selected != None ==> file == selected && result == None && error == None
      ensures preview == old(preview) && isLoading == old(isLoading)
    {
      if selected != None {
        file := selected;
        result := None;
        error := None;
      }
    }

    /** The file reader finished: the preview shows the data URI. */
    method PreviewLoaded(dataUri: string)
      modifies this
      ensures preview == Some(dataUri)
      ensures file == old(file) && isLoading == old(isLoading) && result == old(result) && error == old(error)
    {
      preview := Some(dataUri);
    }

    /** `handleSubmit` up to the awaited call: without a file nothing happens; otherwise loading starts and result and error clear. */
    method Submit() returns (started: bool)
      modifies this
      ensures started <==> old(file) != None
      ensures !started ==> isLoading == old(isLoading) && result == old(result) && error == old(error)
      ensures started ==> isLoading && result == None && error == None
      ensures file == old(file) && preview == old(preview)
    {
      if file == None {
        return false;
      }
      isLoading := true;
      error := None;
      result := None;
      return true;
    }

    /** The continuation after the awaited call: store the result or the error, and stop loading either way. */
    method RecognitionDone(outcome: Recognition)
      modifies this
      ensures outcome.Recognized? ==> result == Some(outcome.output) && error == old(error)
      ensures outcome.RecognitionFailed? ==> error == Some(RecognitionFailedMessage) && result == old(result)
      ensures !isLoading && file == old(file) && preview == old(preview)
    {
      if outcome.Recognized? {
        result := Some(outcome.output);
      } else {
        error := Some(RecognitionFailedMessage);
      }
      isLoading := false;
    }

    /**
     * `handleSaveAttendance`: without a result nothing happens. Otherwise the
     * merged list goes through the hook's setter and the review state clears,
     * whether or not the storage write went through.
     */
    method SaveAttendance(roster: seq<Student>, today: string, writeSucceeds: bool)
      modifies this, records, records.storage
      ensures old(result) == None ==>
        file == old(file) && preview == old(preview) && result == None && error == old(error) &&
        records.storedValue == old(records.storedValue) && records.storage.items == old(records.storage.items)
      ensures old(result) != None ==> result == None && file == None && preview == None && error == old(error)
      ensures old(result) != None && records.storage.isClient && writeSucceeds ==>
        var merged := SaveMerge(old(records.storedValue), roster, old(result).value.attendedStudents, today);
        records.storedValue == merged && records.storage.items == old(records.storage.items)[records.key := Encoded(merged)]
      ensures old(result) != None && !(records.storage.isClient && writeSucceeds) ==>
        records.storedValue == old(records.storedValue) && records.storage.items == old(records.storage.items)
      ensures isLoading == old(isLoading)
    {
      if result == None {
        return;
      }
      var newRecords := NewRecords(roster, result.value.attendedStudents, today);
      var otherDayRecords := Filter(records.storedValue, OnOtherDay(today));
      records.SetValue(Value(otherDayRecords + newRecords), writeSucceeds);
      result := None;
      file := None;
      preview := None;
    }
  }
}
