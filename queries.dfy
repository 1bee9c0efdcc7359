/**
 * The four read-only joins of the server. Each is written as the nested-loop evaluation
 * of its SQL text (outer table first, in the order of the FROM/JOIN clauses) and is
 * characterised exactly by membership: a row is in the result if and only if the
 * joined rows it is made of exist and satisfy the ON and WHERE conditions.
 */
module Queries {
  import opened Schema

  /** `users.*, teachers.id as teacherId` (server.js:137). */
  datatype TeacherListing = TeacherListing(user: UserRow, teacherId: int)

  /** `classes.*, subjects.name as subjectName` (server.js:172, 189). */
  datatype ScheduleEntry = ScheduleEntry(slot: ClassRow, subjectName: string)

  /** `courses.*, subjects.name as subjectName, users.name as teacherName` (server.js:207). */
  datatype CourseOffer = CourseOffer(course: CourseRow, subjectName: string, teacherName: string)

  /** One pass of a nested loop: the rows produced for each element, concatenated. */
  function FlatMap<A(!new), B(!new)>(s: seq<A>, f: A -> seq<B>): (r: seq<B>)
    ensures forall b :: b in r <==> exists a :: a in s && b in f(a)
  {
    if s == [] then [] else f(s[0]) + FlatMap(s[1..], f)
  }

  // ---------------------------------------------------------------------------
  // GET /api/teachers

  function TeacherMatches(u: UserRow, teachers: seq<TeacherRow>): (r: seq<TeacherListing>)
    ensures forall e :: e in r <==> e.user == u && u.role == Teacher && TeacherRow(e.teacherId, u.id) in teachers
  {
    FlatMap(teachers, (t: TeacherRow) =>
      if u.id == t.userId && u.role == Teacher then [TeacherListing(u, t.id)] else [])
  }

  /** `FROM users JOIN teachers ON users.id = teachers.userId WHERE users.role = 'TEACHER'` (server.js:136-141). */
  function TeacherListingRows(users: seq<UserRow>, teachers: seq<TeacherRow>): (r: seq<TeacherListing>)
    ensures forall e :: e in r <==>
      e.user in users && e.user.role == Teacher && TeacherRow(e.teacherId, e.user.id) in teachers
  {
    FlatMap(users, (u: UserRow) => TeacherMatches(u, teachers))
  }

  // ---------------------------------------------------------------------------
  // Schedules

  /** The class's course exists and that course's subject exists and has the given name. */
  ghost predicate Resolves(slot: ClassRow, subjectName: string, courses: seq<CourseRow>, subjects: seq<SubjectRow>) {
    exists co, s :: co in courses && s in subjects && co.id == slot.courseId && s.id == co.subjectId && s.name == subjectName
  }

  /** `JOIN subjects ON courses.subjectId = subjects.id` for one class and its course. */
  function SubjectMatches(slot: ClassRow, co: CourseRow, subjects: seq<SubjectRow>): (r: seq<ScheduleEntry>)
    ensures forall e :: e in r <==>
      e.slot == slot && exists s :: s in subjects && s.id == co.subjectId && s.name == e.subjectName
  {
    FlatMap(subjects, (s: SubjectRow) =>
      if s.id == co.subjectId then [ScheduleEntry(slot, s.name)] else [])
  }

  /** `JOIN courses ON classes.courseId = courses.id JOIN subjects ...` for one class. */
  function CourseMatches(slot: ClassRow, courses: seq<CourseRow>, subjects: seq<SubjectRow>): (r: seq<ScheduleEntry>)
    ensures forall e :: e in r <==> e.slot == slot && Resolves(slot, e.subjectName, courses, subjects)
  {
    FlatMap(courses, (co: CourseRow) =>
      if co.id == slot.courseId then SubjectMatches(slot, co, subjects) else [])
  }

  /** `FROM classes JOIN courses ... JOIN subjects ... WHERE classes.teacherId = ?` (server.js:171-177). */
  function TeacherScheduleRows(classes: seq<ClassRow>, courses: seq<CourseRow>, subjects: seq<SubjectRow>,
                               teacherId: int): (r: seq<ScheduleEntry>)
    ensures forall e :: e in r <==>
      e.slot in classes && e.slot.teacherId == teacherId && Resolves(e.slot, e.subjectName, courses, subjects)
  {
    FlatMap(classes, (slot: ClassRow) =>
      if slot.teacherId == teacherId then CourseMatches(slot, courses, subjects) else [])
  }

  /** `JOIN classes ON classes.courseId = courses.id JOIN subjects ...` for one course. */
  function ClassMatches(co: CourseRow, classes: seq<ClassRow>, subjects: seq<SubjectRow>): (r: seq<ScheduleEntry>)
    ensures forall e :: e in r <==>
      e.slot in classes && e.slot.courseId == co.id &&
      exists s :: s in subjects && s.id == co.subjectId && s.name == e.subjectName
  {
    FlatMap(classes, (slot: ClassRow) =>
      if slot.courseId == co.id then SubjectMatches(slot, co, subjects) else [])
  }

  /** `JOIN courses ON enrollments.courseId = courses.id JOIN classes ... JOIN subjects ...` for one enrollment. */
  function EnrollmentMatches(en: EnrollmentRow, courses: seq<CourseRow>, classes: seq<ClassRow>,
                             subjects: seq<SubjectRow>): (r: seq<ScheduleEntry>)
    ensures forall e :: e in r <==>
      e.slot in classes && e.slot.courseId == en.courseId && Resolves(e.slot, e.subjectName, courses, subjects)
  {
    FlatMap(courses, (co: CourseRow) =>
      if co.id == en.courseId then ClassMatches(co, classes, subjects) else [])
  }

  /** `FROM enrollments JOIN courses ... JOIN classes ... JOIN subjects ... WHERE enrollments.studentId = ?` (server.js:188-195). */
  function StudentScheduleRows(enrollments: seq<EnrollmentRow>, courses: seq<CourseRow>, classes: seq<ClassRow>,
                               subjects: seq<SubjectRow>, studentId: int): (r: seq<ScheduleEntry>)
    ensures forall e :: e in r <==>
      e.slot in classes && EnrollmentRow(studentId, e.slot.courseId) in enrollments &&
      Resolves(e.slot, e.subjectName, courses, subjects)
  {
    FlatMap(enrollments, (en: EnrollmentRow) =>
      if en.studentId == studentId then EnrollmentMatches(en, courses, classes, subjects) else [])
  }

  // ---------------------------------------------------------------------------
  // GET /api/courses/available

  /** The subject's teacher row exists and belongs to an existing user with the given name. */
  ghost predicate TaughtBy(s: SubjectRow, teacherName: string, teachers: seq<TeacherRow>, users: seq<UserRow>) {
    exists t, u :: t in teachers && u in users && t.id == s.teacherId && u.id == t.userId && u.name == teacherName
  }

  function UserMatches(co: CourseRow, s: SubjectRow, t: TeacherRow, users: seq<UserRow>): (r: seq<CourseOffer>)
    ensures forall o :: o in r <==>
      o.course == co && o.subjectName == s.name && exists u :: u in users && u.id == t.userId && u.name == o.teacherName
  {
    FlatMap(users, (u: UserRow) =>
      if u.id == t.userId then [CourseOffer(co, s.name, u.name)] else [])
  }

  function TeacherOfSubject(co: CourseRow, s: SubjectRow, teachers: seq<TeacherRow>, users: seq<UserRow>): (r: seq<CourseOffer>)
    ensures forall o :: o in r <==>
      o.course == co && o.subjectName == s.name && TaughtBy(s, o.teacherName, teachers, users)
  {
    FlatMap(teachers, (t: TeacherRow) =>
      if t.id == s.teacherId then UserMatches(co, s, t, users) else [])
  }

  function SubjectOfCourse(co: CourseRow, subjects: seq<SubjectRow>, teachers: seq<TeacherRow>,
                           users: seq<UserRow>): (r: seq<CourseOffer>)
    ensures forall o :: o in r <==>
      o.course == co &&
      exists s :: s in subjects && s.id == co.subjectId && s.name == o.subjectName &&
                  TaughtBy(s, o.teacherName, teachers, users)
  {
    FlatMap(subjects, (s: SubjectRow) =>
      if s.id == co.subjectId then TeacherOfSubject(co, s, teachers, users) else [])
  }

  /** `FROM courses JOIN subjects ... JOIN teachers ... JOIN users ...`, no WHERE (server.js:206-212). */
  function AvailableCourseRows(courses: seq<CourseRow>, subjects: seq<SubjectRow>, teachers: seq<TeacherRow>,
                               users: seq<UserRow>): (r: seq<CourseOffer>)
    ensures forall o :: o in r <==>
      o.course in courses &&
      exists s :: s in subjects && s.id == o.course.subjectId && s.name == o.subjectName &&
                  TaughtBy(s, o.teacherName, teachers, users)
  {
    FlatMap(courses, (co: CourseRow) => SubjectOfCourse(co, subjects, teachers, users))
  }
}
