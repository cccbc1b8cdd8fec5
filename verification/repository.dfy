/**
 The in-memory store of the tutorial manager: three insertion-ordered
 collections loaded once from durable storage, two append-only mutations and
 the tolerant student-name lookup that the fee views use.

 Durable storage is reduced to one optional blob per collection: `None` is a
 key that was never written (or holds null), `Some(xs)` a stored list. The
 wall clock and the locale date are parameters of the mutations.
 */
module Repository {
  import opened Records

  /** The three collections, each in insertion order. */
  datatype Store = Store(students: seq<Student>, courses: seq<Course>, fees: seq<Fee>)

  /** What durable storage holds under the keys "students", "courses" and "fees". */
  datatype Storage = Storage(students: Option<seq<Student>>, courses: Option<seq<Course>>, fees: Option<seq<Fee>>)

  /** The courses a first run starts with. */
  function DefaultCourses(): seq<Course> {
    [Course(Num(1), "Mathematics", 500), Course(Num(2), "Science", 450)]
  }

  /** The stored value, or the fallback when nothing is stored. */
  function OrElse<T>(stored: Option<T>, fallback: T): T {
    match stored
    case Some(v) => v
    case None => fallback
  }

  /** Start-up state: every stored list is used as it is, even an empty one;
      an absent key yields no students, the two default courses, no fees. */
  function Load(st: Storage): (s: Store)
    ensures st.students.Some? ==> s.students == st.students.value
    ensures st.students.None? ==> s.students == []
    ensures st.courses.Some? ==> s.courses == st.courses.value
    ensures st.courses.None? ==> s.courses == DefaultCourses()
    ensures st.fees.Some? ==> s.fees == st.fees.value
    ensures st.fees.None? ==> s.fees == []
  {
    Store(OrElse(st.students, []), OrElse(st.courses, DefaultCourses()), OrElse(st.fees, []))
  }

  /** Writes all three collections; loading what was written gives the same
      store back, element for element and in order. */
  function Save(s: Store): (st: Storage)
    ensures st.students.Some? && st.courses.Some? && st.fees.Some?
    ensures Load(st) == s
  {
    Storage(Some(s.students), Some(s.courses), Some(s.fees))
  }

  /** Adds a student created at clock time `now` on the calendar day `today`. */
  function AddStudent(s: Store, now: int, name: string, courseId: Id, phone: string, today: string): (r: Store)
    ensures |r.students| == |s.students| + 1
    ensures r.students[..|s.students|] == s.students
    ensures r.students[|s.students|] == Student(Num(now), name, courseId, phone, today)
    ensures r.courses == s.courses && r.fees == s.fees
  {
    s.(students := s.students + [Student(Num(now), name, courseId, phone, today)])
  }

  /** Records a fee paid at clock time `now` on the calendar day `today`. */
  function AddFee(s: Store, now: int, studentId: Id, amount: int, month: string, paymentMethod: string, today: string): (r: Store)
    ensures |r.fees| == |s.fees| + 1
    ensures r.fees[..|s.fees|] == s.fees
    ensures r.fees[|s.fees|] == Fee(Num(now), studentId, amount, month, paymentMethod, today)
    ensures r.students == s.students && r.courses == s.courses
  {
    s.(fees := s.fees + [Fee(Num(now), studentId, amount, month, paymentMethod, today)])
  }

  /** Index `i` holds the first student whose id matches `id`. */
  ghost predicate FirstMatch(students: seq<Student>, id: Id, i: int) {
    && 0 <= i < |students|
    && SameId(students[i].id, id)
    && forall j :: 0 <= j < i ==> !SameId(students[j].id, id)
  }

  /** The position of the first student whose id matches `id`, scanning from
      the front as `Array.prototype.find` does. */
  function FindStudent(students: seq<Student>, id: Id): (r: Option<nat>)
    ensures r.Some? ==> FirstMatch(students, id, r.value)
    ensures r.None? ==> forall j :: 0 <= j < |students| ==> !SameId(students[j].id, id)
  {
    if |students| == 0 then None
    else if SameId(students[0].id, id) then Some(0)
    else
      match FindStudent(students[1..], id)
      case None => None
      case Some(k) => Some(k + 1)
  }

  /** The placeholder shown for a dangling or nameless student reference. */
  const Unknown: string := "Unknown"

  /** The display name for a student reference: the name of the first
      matching student, or "Unknown" when nothing matches or the name is empty. */
  function GetStudentName(students: seq<Student>, id: Id): (name: string)
    ensures name != ""
    ensures forall i :: FirstMatch(students, id, i) && students[i].name != "" ==> name == students[i].name
    ensures forall i :: FirstMatch(students, id, i) && students[i].name == "" ==> name == Unknown
    ensures (forall j :: 0 <= j < |students| ==> !SameId(students[j].id, id)) ==> name == Unknown
  {
    match FindStudent(students, id)
    case Some(i) => if students[i].name != "" then students[i].name else Unknown
    case None => Unknown
  }

  /** Appending a student changes the search for `id` only when no earlier
      student matched it: a repeated id never shadows the earlier record. */
  lemma FindStudentAppend(students: seq<Student>, x: Student, id: Id)
    ensures FindStudent(students + [x], id) ==
      if FindStudent(students, id).Some? then FindStudent(students, id)
      else if SameId(x.id, id) then Some(|students|)
      else None
  {
    var r := FindStudent(students + [x], id);
    match FindStudent(students, id)
    case Some(k) =>
      assert FirstMatch(students + [x], id, k);
    case None =>
      if SameId(x.id, id) {
        assert FirstMatch(students + [x], id, |students|);
      }
  }

  /** A student added under a fresh clock value is found again by any
      identifier with the same string form (the number itself, or the text
      the fee form submits), and its name is returned. */
  lemma AddedStudentIsFound(s: Store, now: int, name: string, courseId: Id, phone: string, today: string, query: Id)
    requires forall j :: 0 <= j < |s.students| ==> !SameId(s.students[j].id, Num(now))
    requires SameId(query, Num(now))
    requires name != ""
    ensures GetStudentName(AddStudent(s, now, name, courseId, phone, today).students, query) == name
  {
  }

  /** Adding a student leaves every lookup alone that either already had a
      match or does not match the new id. */
  lemma AddStudentKeepsOtherNames(s: Store, now: int, name: string, courseId: Id, phone: string, today: string, query: Id)
    requires FindStudent(s.students, query).Some? || !SameId(query, Num(now))
    ensures GetStudentName(AddStudent(s, now, name, courseId, phone, today).students, query)
         == GetStudentName(s.students, query)
  {
  }

  /** Every student carries a numeric id and the ids grow strictly in
      insertion order, as clock-stamped creation produces them. */
  ghost predicate IncreasingIds(students: seq<Student>) {
    && (forall i :: 0 <= i < |students| ==> students[i].id.Num?)
    && (forall i, j :: 0 <= i < j < |students| ==> students[i].id.n < students[j].id.n)
  }

  /** Creating a student with a clock value past the last id keeps the ids
      increasing (and hence unique). */
  lemma AddStudentKeepsIdsIncreasing(s: Store, now: int, name: string, courseId: Id, phone: string, today: string)
    requires IncreasingIds(s.students)
    requires |s.students| == 0 || s.students[|s.students| - 1].id.n < now
    ensures IncreasingIds(AddStudent(s, now, name, courseId, phone, today).students)
  {
  }

  /** With increasing ids, looking a student up by its own id finds that very
      student: distinct numbers never share a string form. */
  lemma {:induction false} EveryStudentFindsItself(students: seq<Student>, k: int)
    requires IncreasingIds(students)
    requires 0 <= k < |students|
    ensures FindStudent(students, students[k].id) == Some(k)
  {
    var id := students[k].id;
    forall j | 0 <= j < k
      ensures !SameId(students[j].id, id)
    {
      SameNumericId(students[j].id.n, id.n);
    }
    assert FirstMatch(students, id, k);
  }

  /** Courses are seeded only when nothing is stored under their key. A
      stored list, even an empty one, is never replaced by the defaults, and
      saving and reloading after either mutation keeps whatever courses the
      store held rather than seeding them again. */
  lemma SeedNotRepeated(s: Store, now: int, name: string, courseId: Id, phone: string, studentId: Id,
                        amount: int, month: string, paymentMethod: string, today: string)
    ensures Load(Storage(None, None, None)).courses == DefaultCourses()
    ensures Load(Storage(None, Some([]), None)).courses == []
    ensures Load(Save(AddStudent(s, now, name, courseId, phone, today))).courses == s.courses
    ensures Load(Save(AddFee(s, now, studentId, amount, month, paymentMethod, today))).courses == s.courses
  {
  }
}
