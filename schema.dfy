/**
 * The seven tables of the school database (server.js, the CREATE TABLE block), one row
 * datatype per table, the whole database as a value, the invariant the server's handlers
 * keep, and the single-row lookups the handlers run (`SELECT * ... WHERE ... = ?` followed
 * by `.get()`, which yields the first matching row in rowid order, or nothing).
 */
module Schema {
  import opened Wrappers

  /** The `role` column only ever receives one of these three strings. */
  datatype Role = Admin | Teacher | Student

  datatype UserRow = UserRow(id: int, name: string, email: string, password: string, role: Role)
  datatype StudentRow = StudentRow(id: int, userId: int, grade: string)
  datatype TeacherRow = TeacherRow(id: int, userId: int)
  datatype SubjectRow = SubjectRow(id: int, name: string, teacherId: int)
  datatype CourseRow = CourseRow(id: int, subjectId: int)
  datatype ClassRow = ClassRow(id: int, courseId: int, teacherId: int, day: string,
                               startTime: string, endTime: string, room: string)
  datatype EnrollmentRow = EnrollmentRow(studentId: int, courseId: int)

  /**
   * The database: each table in rowid order, and for each AUTOINCREMENT table the
   * largest id it has handed out (its `sqlite_sequence` entry). `enrollments` has a
   * composite primary key and no counter.
   */
  datatype Db = Db(
    users: seq<UserRow>,
    students: seq<StudentRow>,
    teachers: seq<TeacherRow>,
    subjects: seq<SubjectRow>,
    courses: seq<CourseRow>,
    classes: seq<ClassRow>,
    enrollments: seq<EnrollmentRow>,
    userSeq: nat,
    studentSeq: nat,
    teacherSeq: nat,
    subjectSeq: nat,
    courseSeq: nat,
    classSeq: nat)

  /** A freshly created database file. */
  const Empty: Db := Db([], [], [], [], [], [], [], 0, 0, 0, 0, 0, 0)

  // ---------------------------------------------------------------------------
  // The invariant

  /** Rows numbered 1, 2, 3, ... in rowid order, and the counter equal to the number of rows. */
  ghost predicate UsersNumbered(users: seq<UserRow>, last: nat) {
    last == |users| && forall i :: 0 <= i < |users| ==> users[i].id == i + 1
  }

  ghost predicate StudentsNumbered(students: seq<StudentRow>, last: nat) {
    last == |students| && forall i :: 0 <= i < |students| ==> students[i].id == i + 1
  }

  ghost predicate TeachersNumbered(teachers: seq<TeacherRow>, last: nat) {
    last == |teachers| && forall i :: 0 <= i < |teachers| ==> teachers[i].id == i + 1
  }

  ghost predicate SubjectsNumbered(subjects: seq<SubjectRow>, last: nat) {
    last == |subjects| && forall i :: 0 <= i < |subjects| ==> subjects[i].id == i + 1
  }

  ghost predicate CoursesNumbered(courses: seq<CourseRow>, last: nat) {
    last == |courses| && forall i :: 0 <= i < |courses| ==> courses[i].id == i + 1
  }

  ghost predicate ClassesNumbered(classes: seq<ClassRow>, last: nat) {
    last == |classes| && forall i :: 0 <= i < |classes| ==> classes[i].id == i + 1
  }

  /**
   * Nothing is ever deleted and a refused insert does not advance a counter, so the
   * rows of every AUTOINCREMENT table are numbered 1, 2, 3, ... and the counter is
   * the number of rows.
   */
  ghost predicate Numbered(db: Db) {
    && UsersNumbered(db.users, db.userSeq)
    && StudentsNumbered(db.students, db.studentSeq)
    && TeachersNumbered(db.teachers, db.teacherSeq)
    && SubjectsNumbered(db.subjects, db.subjectSeq)
    && CoursesNumbered(db.courses, db.courseSeq)
    && ClassesNumbered(db.classes, db.classSeq)
  }

  /** `email TEXT UNIQUE` (server.js:19). */
  ghost predicate EmailsUnique(users: seq<UserRow>) {
    forall i, j :: 0 <= i < j < |users| ==> users[i].email != users[j].email
  }

  /** `PRIMARY KEY (studentId, courseId)` (server.js:65). */
  ghost predicate PairsUnique(enrollments: seq<EnrollmentRow>) {
    forall i, j :: 0 <= i < j < |enrollments| ==> enrollments[i] != enrollments[j]
  }

  predicate HasStudentProfile(students: seq<StudentRow>, userId: int) {
    exists k :: 0 <= k < |students| && students[k].userId == userId
  }

  predicate HasTeacherProfile(teachers: seq<TeacherRow>, userId: int) {
    exists k :: 0 <= k < |teachers| && teachers[k].userId == userId
  }

  /** The parent row a `REFERENCES students(id)` foreign key asks for. */
  predicate HasStudent(students: seq<StudentRow>, id: int) {
    exists k :: 0 <= k < |students| && students[k].id == id
  }

  /** The parent row a `REFERENCES courses(id)` foreign key asks for. */
  predicate HasCourse(courses: seq<CourseRow>, id: int) {
    exists k :: 0 <= k < |courses| && courses[k].id == id
  }

  /** Each student row belongs to an existing STUDENT user. */
  ghost predicate StudentsOwned(users: seq<UserRow>, students: seq<StudentRow>) {
    forall k :: 0 <= k < |students| ==> 1 <= students[k].userId <= |users| && users[students[k].userId - 1].role == Student
  }

  /** No user has two student rows. */
  ghost predicate StudentOwnersDistinct(students: seq<StudentRow>) {
    forall k, l :: 0 <= k < l < |students| ==> students[k].userId != students[l].userId
  }

  /** Every STUDENT user has a student row. */
  ghost predicate StudentsCovered(users: seq<UserRow>, students: seq<StudentRow>) {
    forall i :: 0 <= i < |users| && users[i].role == Student ==> HasStudentProfile(students, users[i].id)
  }

  ghost predicate TeachersOwned(users: seq<UserRow>, teachers: seq<TeacherRow>) {
    forall k :: 0 <= k < |teachers| ==> 1 <= teachers[k].userId <= |users| && users[teachers[k].userId - 1].role == Teacher
  }

  ghost predicate TeacherOwnersDistinct(teachers: seq<TeacherRow>) {
    forall k, l :: 0 <= k < l < |teachers| ==> teachers[k].userId != teachers[l].userId
  }

  ghost predicate TeachersCovered(users: seq<UserRow>, teachers: seq<TeacherRow>) {
    forall i :: 0 <= i < |users| && users[i].role == Teacher ==> HasTeacherProfile(teachers, users[i].id)
  }

  /**
   * Profiles and users correspond one to one: each student (teacher) row belongs to an
   * existing STUDENT (TEACHER) user, no user has two, and every STUDENT (TEACHER) user
   * has one. The foreign keys on `userId` only ask for an existing user; the roles and the
   * one-to-one correspondence are kept by the handlers themselves.
   */
  ghost predicate ProfilesLinked(users: seq<UserRow>, students: seq<StudentRow>, teachers: seq<TeacherRow>) {
    && StudentsOwned(users, students) && StudentOwnersDistinct(students) && StudentsCovered(users, students)
    && TeachersOwned(users, teachers) && TeacherOwnersDistinct(teachers) && TeachersCovered(users, teachers)
  }

  /** Enrollments name existing students (server.js:66). */
  ghost predicate EnrolledStudentsExist(enrollments: seq<EnrollmentRow>, students: seq<StudentRow>) {
    forall i :: 0 <= i < |enrollments| ==> 1 <= enrollments[i].studentId <= |students|
  }

  /** Enrollments name existing courses (server.js:67). */
  ghost predicate EnrolledCoursesExist(enrollments: seq<EnrollmentRow>, courses: seq<CourseRow>) {
    forall i :: 0 <= i < |enrollments| ==> 1 <= enrollments[i].courseId <= |courses|
  }

  ghost predicate Consistent(db: Db) {
    && Numbered(db)
    && EmailsUnique(db.users)
    && PairsUnique(db.enrollments)
    && ProfilesLinked(db.users, db.students, db.teachers)
    && EnrolledStudentsExist(db.enrollments, db.students)
    && EnrolledCoursesExist(db.enrollments, db.courses)
  }

  lemma EmptyConsistent()
    ensures Consistent(Empty)
  {
  }

  // ---------------------------------------------------------------------------
  // Keeping the invariant when a user and its profile are appended

  lemma AppendUserKeepsEmailsUnique(users: seq<UserRow>, u: UserRow)
    requires EmailsUnique(users)
    requires forall v :: v in users ==> v.email != u.email
    ensures EmailsUnique(users + [u])
  {
    var users' := users + [u];
    forall i, j | 0 <= i < j < |users'| ensures users'[i].email != users'[j].email {
      if j == |users| {
        assert users'[i] in users;
      }
    }
  }

  /** Appending a user keeps every existing profile owned by the same user. */
  lemma AppendUserKeepsOwned(users: seq<UserRow>, students: seq<StudentRow>, teachers: seq<TeacherRow>, u: UserRow)
    requires StudentsOwned(users, students) && TeachersOwned(users, teachers)
    ensures StudentsOwned(users + [u], students) && TeachersOwned(users + [u], teachers)
  {
    var users' := users + [u];
    forall k | 0 <= k < |students| ensures users'[students[k].userId - 1] == users[students[k].userId - 1] {
    }
    forall k | 0 <= k < |teachers| ensures users'[teachers[k].userId - 1] == users[teachers[k].userId - 1] {
    }
  }

  /** Appending a user that is not a STUDENT keeps every STUDENT user covered. */
  lemma AppendNonStudentKeepsCovered(users: seq<UserRow>, students: seq<StudentRow>, u: UserRow)
    requires StudentsCovered(users, students) && u.role != Student
    ensures StudentsCovered(users + [u], students)
  {
    var users' := users + [u];
    forall i | 0 <= i < |users'| && users'[i].role == Student ensures HasStudentProfile(students, users'[i].id) {
      assert users'[i] == users[i];
    }
  }

  lemma AppendNonTeacherKeepsCovered(users: seq<UserRow>, teachers: seq<TeacherRow>, u: UserRow)
    requires TeachersCovered(users, teachers) && u.role != Teacher
    ensures TeachersCovered(users + [u], teachers)
  {
    var users' := users + [u];
    forall i | 0 <= i < |users'| && users'[i].role == Teacher ensures HasTeacherProfile(teachers, users'[i].id) {
      assert users'[i] == users[i];
    }
  }

  /** A new profile row for a user with the next id is owned by that user and by no one else's row. */
  lemma AppendStudentKeepsOwned(users: seq<UserRow>, students: seq<StudentRow>, u: UserRow, s: StudentRow)
    requires StudentsOwned(users, students) && StudentOwnersDistinct(students)
    requires u.id == |users| + 1 && u.role == Student && s.userId == u.id
    ensures StudentsOwned(users + [u], students + [s]) && StudentOwnersDistinct(students + [s])
  {
    var users', students' := users + [u], students + [s];
    forall k | 0 <= k < |students'|
      ensures 1 <= students'[k].userId <= |users'| && users'[students'[k].userId - 1].role == Student
    {
      if k < |students| {
        assert students'[k] == students[k];
        assert users'[students[k].userId - 1] == users[students[k].userId - 1];
      } else {
        assert users'[s.userId - 1] == u;
      }
    }
  }

  lemma AppendStudentKeepsCovered(users: seq<UserRow>, students: seq<StudentRow>, u: UserRow, s: StudentRow)
    requires StudentsCovered(users, students)
    requires s.userId == u.id
    ensures StudentsCovered(users + [u], students + [s])
  {
    var users', students' := users + [u], students + [s];
    forall i | 0 <= i < |users'| && users'[i].role == Student ensures HasStudentProfile(students', users'[i].id) {
      if i < |users| {
        var k :| 0 <= k < |students| && students[k].userId == users[i].id;
        assert students'[k].userId == users'[i].id;
      } else {
        assert students'[|students|].userId == users'[i].id;
      }
    }
  }

  lemma AppendTeacherKeepsOwned(users: seq<UserRow>, teachers: seq<TeacherRow>, u: UserRow, t: TeacherRow)
    requires TeachersOwned(users, teachers) && TeacherOwnersDistinct(teachers)
    requires u.id == |users| + 1 && u.role == Teacher && t.userId == u.id
    ensures TeachersOwned(users + [u], teachers + [t]) && TeacherOwnersDistinct(teachers + [t])
  {
    var users', teachers' := users + [u], teachers + [t];
    forall k | 0 <= k < |teachers'|
      ensures 1 <= teachers'[k].userId <= |users'| && users'[teachers'[k].userId - 1].role == Teacher
    {
      if k < |teachers| {
        assert teachers'[k] == teachers[k];
        assert users'[teachers[k].userId - 1] == users[teachers[k].userId - 1];
      } else {
        assert users'[t.userId - 1] == u;
      }
    }
  }

  lemma AppendTeacherKeepsCovered(users: seq<UserRow>, teachers: seq<TeacherRow>, u: UserRow, t: TeacherRow)
    requires TeachersCovered(users, teachers)
    requires t.userId == u.id
    ensures TeachersCovered(users + [u], teachers + [t])
  {
    var users', teachers' := users + [u], teachers + [t];
    forall i | 0 <= i < |users'| && users'[i].role == Teacher ensures HasTeacherProfile(teachers', users'[i].id) {
      if i < |users| {
        var k :| 0 <= k < |teachers| && teachers[k].userId == users[i].id;
        assert teachers'[k].userId == users'[i].id;
      } else {
        assert teachers'[|teachers|].userId == users'[i].id;
      }
    }
  }

  /** Appending a STUDENT user with the next id together with its student row. */
  lemma AppendStudentKeepsLinked(users: seq<UserRow>, students: seq<StudentRow>, teachers: seq<TeacherRow>,
                                 u: UserRow, s: StudentRow)
    requires ProfilesLinked(users, students, teachers)
    requires u.id == |users| + 1 && u.role == Student && s.userId == u.id
    ensures ProfilesLinked(users + [u], students + [s], teachers)
  {
    AppendUserKeepsOwned(users, students, teachers, u);
    AppendStudentKeepsOwned(users, students, u, s);
    AppendStudentKeepsCovered(users, students, u, s);
    AppendNonTeacherKeepsCovered(users, teachers, u);
  }

  /** Appending a TEACHER user with the next id together with its teacher row. */
  lemma AppendTeacherKeepsLinked(users: seq<UserRow>, students: seq<StudentRow>, teachers: seq<TeacherRow>,
                                 u: UserRow, t: TeacherRow)
    requires ProfilesLinked(users, students, teachers)
    requires u.id == |users| + 1 && u.role == Teacher && t.userId == u.id
    ensures ProfilesLinked(users + [u], students, teachers + [t])
  {
    AppendUserKeepsOwned(users, students, teachers, u);
    AppendTeacherKeepsOwned(users, teachers, u, t);
    AppendTeacherKeepsCovered(users, teachers, u, t);
    AppendNonStudentKeepsCovered(users, students, u);
  }

  /** Appending a user with no profile (the administrator). */
  lemma AppendAdminKeepsLinked(users: seq<UserRow>, students: seq<StudentRow>, teachers: seq<TeacherRow>, u: UserRow)
    requires ProfilesLinked(users, students, teachers)
    requires u.role == Admin
    ensures ProfilesLinked(users + [u], students, teachers)
  {
    AppendUserKeepsOwned(users, students, teachers, u);
    AppendNonStudentKeepsCovered(users, students, u);
    AppendNonTeacherKeepsCovered(users, teachers, u);
  }

  /** Appending a new pair for an existing student and an existing course keeps the whole invariant. */
  lemma AppendEnrollmentKeepsConsistent(db: Db, pair: EnrollmentRow)
    requires Consistent(db)
    requires 1 <= pair.studentId <= |db.students| && 1 <= pair.courseId <= |db.courses| && pair !in db.enrollments
    ensures Consistent(db.(enrollments := db.enrollments + [pair]))
  {
    var es := db.enrollments + [pair];
    forall i, j | 0 <= i < j < |es| ensures es[i] != es[j] {
      if j == |db.enrollments| {
        assert es[i] in db.enrollments;
      }
    }
    forall i | 0 <= i < |es| ensures 1 <= es[i].studentId <= |db.students| && 1 <= es[i].courseId <= |db.courses| {
      if i < |db.enrollments| { assert es[i] == db.enrollments[i]; }
    }
  }

  // ---------------------------------------------------------------------------
  // Single-row lookups

  /** The index of the first element satisfying `p`, as `.get()` returns the first row. */
  function FirstIndex<T>(s: seq<T>, p: T -> bool): (r: Option<nat>)
    ensures r.Some? ==> r.value < |s| && p(s[r.value]) && forall j :: 0 <= j < r.value ==> !p(s[j])
    ensures r.None? ==> forall j :: 0 <= j < |s| ==> !p(s[j])
  {
    if s == [] then None
    else if p(s[0]) then Some(0)
    else match FirstIndex(s[1..], p)
      case None => None
      case Some(k) => Some(k + 1)
  }

  /** `SELECT * FROM users WHERE id = ?` (server.js:88). */
  function UserById(users: seq<UserRow>, id: int): (r: Option<UserRow>)
    ensures r.Some? ==> r.value in users && r.value.id == id
    ensures r.None? <==> forall u :: u in users ==> u.id != id
  {
    match FirstIndex(users, (u: UserRow) => u.id == id)
    case None => None
    case Some(k) => Some(users[k])
  }

  /** `SELECT * FROM users WHERE email = ?` (server.js:74, 103). */
  function UserByEmail(users: seq<UserRow>, email: string): (r: Option<UserRow>)
    ensures r.Some? ==> r.value in users && r.value.email == email
    ensures r.None? <==> forall u :: u in users ==> u.email != email
  {
    match FirstIndex(users, (u: UserRow) => u.email == email)
    case None => None
    case Some(k) => Some(users[k])
  }

  /** `SELECT * FROM teachers WHERE userId = ?` (server.js:170). */
  function TeacherByUser(teachers: seq<TeacherRow>, userId: int): (r: Option<TeacherRow>)
    ensures r.Some? ==> r.value in teachers && r.value.userId == userId
    ensures r.None? <==> !HasTeacherProfile(teachers, userId)
  {
    match FirstIndex(teachers, (t: TeacherRow) => t.userId == userId)
    case None => None
    case Some(k) => Some(teachers[k])
  }

  /** `SELECT * FROM students WHERE userId = ?` (server.js:187, 224). */
  function StudentByUser(students: seq<StudentRow>, userId: int): (r: Option<StudentRow>)
    ensures r.Some? ==> r.value in students && r.value.userId == userId
    ensures r.None? <==> !HasStudentProfile(students, userId)
  {
    match FirstIndex(students, (s: StudentRow) => s.userId == userId)
    case None => None
    case Some(k) => Some(students[k])
  }

  /** In a numbered table, the user with id `id` is the row at index `id - 1`. */
  lemma UserByIdNumbered(users: seq<UserRow>, last: nat, id: int)
    requires UsersNumbered(users, last)
    ensures UserById(users, id) == if 1 <= id <= |users| then Some(users[id - 1]) else None
  {
    var r := UserById(users, id);
    if 1 <= id <= |users| {
      assert users[id - 1].id == id;
      assert r.Some?;
      var k :| 0 <= k < |users| && users[k] == r.value;
      assert users[k].id == k + 1;
    }
  }

  /** A TEACHER user of a linked database has exactly one teacher row, the one the lookup finds. */
  lemma TeacherProfileUnique(users: seq<UserRow>, teachers: seq<TeacherRow>, u: UserRow)
    requires TeachersCovered(users, teachers) && TeacherOwnersDistinct(teachers)
    requires u in users && u.role == Teacher
    ensures TeacherByUser(teachers, u.id).Some?
    ensures forall t :: t in teachers && t.userId == u.id ==> t == TeacherByUser(teachers, u.id).value
  {
    var i :| 0 <= i < |users| && users[i] == u;
    assert HasTeacherProfile(teachers, users[i].id);
    var t := TeacherByUser(teachers, u.id).value;
    forall t' | t' in teachers && t'.userId == u.id ensures t' == t {
      var k :| 0 <= k < |teachers| && teachers[k] == t;
      var l :| 0 <= l < |teachers| && teachers[l] == t';
      assert k == l;
    }
  }

  /** A STUDENT user of a linked database has exactly one student row, the one the lookup finds. */
  lemma StudentProfileUnique(users: seq<UserRow>, students: seq<StudentRow>, u: UserRow)
    requires StudentsCovered(users, students) && StudentOwnersDistinct(students)
    requires u in users && u.role == Student
    ensures StudentByUser(students, u.id).Some?
    ensures forall s :: s in students && s.userId == u.id ==> s == StudentByUser(students, u.id).value
  {
    var i :| 0 <= i < |users| && users[i] == u;
    assert HasStudentProfile(students, users[i].id);
    var s := StudentByUser(students, u.id).value;
    forall s' | s' in students && s'.userId == u.id ensures s' == s {
      var k :| 0 <= k < |students| && students[k] == s;
      var l :| 0 <= l < |students| && students[l] == s';
      assert k == l;
    }
  }

  /** With unique emails, the user found by email is the only user with that email. */
  lemma UserByEmailUnique(users: seq<UserRow>, u: UserRow)
    requires EmailsUnique(users)
    requires u in users
    ensures UserByEmail(users, u.email) == Some(u)
  {
    var r := UserByEmail(users, u.email);
    assert r.Some?;
    var i :| 0 <= i < |users| && users[i] == u;
    var j :| 0 <= j < |users| && users[j] == r.value;
    assert i == j;
  }
}
