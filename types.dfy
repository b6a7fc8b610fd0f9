/**
 * The two record kinds the application stores, and the shape of a
 * recognition result handed back by the hosted model.
 */
module Types {

  datatype Option<T> = None | Some(value: T)

  /** A roster entry; the roster is meant to be unique by `id`. */
  datatype Student = Student(id: string, name: string)

  datatype Status = Present | Absent

  /** One student's presence on one `YYYY-MM-DD` day. */
  datatype AttendanceRecord = AttendanceRecord(date: string, studentId: string, status: Status)

  /** What the recognition call returns: matched roster names and free-text descriptions of unmatched faces. */
  datatype RecognitionResult = RecognitionResult(attendedStudents: seq<string>, unidentifiedStudents: seq<string>)

  /**
   * A percentage as an exact fraction: `100 * num / den` percent. The views
   * show `0` when their denominator would be zero; that is `Zero` here.
   */
  datatype Ratio = Ratio(num: nat, den: nat)

  const Zero: Ratio := Ratio(0, 1)

  /** `a` is at least `b`, compared by cross-multiplication (both denominators positive). */
  predicate RatioAtLeast(a: Ratio, b: Ratio)
  {
    a.num * b.den >= b.num * a.den
  }

  /** At most a hundred percent. */
  predicate AtMostWhole(a: Ratio)
  {
    a.num <= a.den
  }
}
