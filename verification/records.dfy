/**
 The three kinds of record the tutorial manager keeps (students, courses and
 fee payments) and the identifiers that link them.

 Identifiers are loosely typed in the application: a freshly created record
 gets a numeric timestamp, while an identifier that comes back from a form
 field (the course of a student, the student of a fee) is text. Lookups
 compare identifiers through their string form, so both shapes are kept.
 */
module Records {
  import Strings

  /** An optional value; `None` stands for data that is absent or null. */
  datatype Option<T> = None | Some(value: T)

  /** A record identifier: a number (creation timestamp or seeded constant)
      or text (the value of a form field). */
  datatype Id = Num(n: int) | Text(s: string)

  /** The string form of an identifier, as `toString()` renders it. */
  function IdString(id: Id): string {
    match id
    case Num(n) => Strings.IntToStr(n)
    case Text(s) => s
  }

  /** Identifiers are compared by their string forms. */
  predicate SameId(a: Id, b: Id) {
    IdString(a) == IdString(b)
  }

  /** Two numeric identifiers match exactly when the numbers are equal. */
  lemma SameNumericId(a: int, b: int)
    ensures SameId(Num(a), Num(b)) <==> a == b
  {
    Strings.IntToStrInjective(a, b);
  }

  datatype Student = Student(id: Id, name: string, courseId: Id, phone: string, joinedDate: string)

  datatype Course = Course(id: Id, name: string, fee: int)

  /** A fee payment. `paymentMethod` is the value (field `method`) chosen in the form ("Cash" or
      "Online"); `month` is a year-month token such as "2023-10". */
  datatype Fee = Fee(id: Id, studentId: Id, amount: int, month: string, paymentMethod: string, date: string)
}
