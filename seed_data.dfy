/** The seed roster of src/lib/data.ts. */
module SeedData {
  import opened Types
  import opened Strings
  import opened RecordLists
  import opened AttendanceForm

  /** `DEFAULT_STUDENTS`. */
  const DefaultStudents: seq<Student> := [
    Student("S001", "Aarav Sharma"),
    Student("S002", "Diya Patel"),
    Student("S003", "Rohan Singh"),
    Student("S004", "Anika Gupta"),
    Student("S005", "Vivaan Reddy"),
    Student("S006", "Ishita Kumar"),
    Student("S007", "Arjun Das"),
    Student("S008", "Myra Joshi"),
    Student("S009", "Kabir Khan"),
    Student("S010", "Saanvi Rao")
  ]

  function Digit(d: nat): (c: char)
    requires d < 10
    ensures '0' <= c <= '9'
  {
    ('0' as int + d) as char
  }

  /** The seed id of the `n`-th student: `S` followed by `n` in three digits. */
  function SeedId(n: nat): (r: string)
    requires 1 <= n <= 999
    ensures |r| == 4 && r[0] == 'S'
  {
    ['S', Digit(n / 100), Digit(n / 10 % 10), Digit(n % 10)]
  }

  /** The roster has ten students with ids S001 to S010 in order. */
  lemma DefaultStudentIds()
    ensures |DefaultStudents| == 10
    ensures forall i :: 0 <= i < 10 ==> DefaultStudents[i].id == SeedId(i + 1)
  {
  }

  /** Student ids are pairwise distinct. */
  lemma DefaultStudentsDistinctIds()
    ensures DistinctIds(DefaultStudents)
  {
  }

  /** The first two letters of each lower-cased name, which already tell the names apart. */
  const NamePrefixes: seq<string> := ["aa", "di", "ro", "an", "vi", "is", "ar", "my", "ka", "sa"]

  /** Names are pairwise distinct after lower-casing, so the case-insensitive match is unambiguous. */
  lemma DefaultStudentsUnambiguousNames()
    ensures UnambiguousNames(DefaultStudents)
  {
    forall i | 0 <= i < 10 ensures |DefaultStudents[i].name| >= 2 && Lower(DefaultStudents[i].name)[..2] == NamePrefixes[i] {
      var name := DefaultStudents[i].name;
      assert Lower(name)[0] == LowerChar(name[0]) && Lower(name)[1] == LowerChar(name[1]);
    }
    forall i, j | 0 <= i < j < 10 ensures Lower(DefaultStudents[i].name) != Lower(DefaultStudents[j].name) {
      assert NamePrefixes[i] != NamePrefixes[j];
    }
  }

  /** Saving against the seed roster keeps one record per (student, date). */
  lemma DefaultRosterSaveKeepsInvariant(records: seq<AttendanceRecord>, attended: seq<string>, today: string)
    requires OnePerStudentDay(records)
    ensures OnePerStudentDay(SaveMerge(records, DefaultStudents, attended, today))
  {
    DefaultStudentsDistinctIds();
    SaveKeepsOnePerStudentDay(records, DefaultStudents, attended, today);
  }
}
