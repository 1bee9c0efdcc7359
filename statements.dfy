/**
 * The INSERT statements the server runs, one function each. An AUTOINCREMENT table gives
 * the new row the id `counter + 1` and advances its counter; a statement refused by a
 * constraint leaves the database exactly as it was. better-sqlite3 builds SQLite with
 * foreign keys switched on, so the declared foreign keys are enforced. Every insert other
 * than the enrollment names a parent row that exists: the user or subject row the handler
 * has just inserted, the course row just inserted, or the teacher row it has just read.
 * Only the enrollment can name a missing parent, since its course id comes from the
 * request body, and only its statement checks its parents here.
 */
module Statements {
  import opened Wrappers
  import opened Schema

  /** The database after an insert and the `lastInsertRowid` the statement reports. */
  datatype Inserted = Inserted(db: Db, rowid: int)

  predicate EmailTaken(users: seq<UserRow>, email: string) {
    exists u :: u in users && u.email == email
  }

  /** `INSERT INTO users (name, email, password, role)` (server.js:78, 121, 155). */
  function InsertUser(db: Db, name: string, email: string, password: string, role: Role): Option<Inserted> {
    if EmailTaken(db.users, email) then None
    else
      var id := db.userSeq + 1;
      Some(Inserted(db.(users := db.users + [UserRow(id, name, email, password, role)], userSeq := id), id))
  }

  /** `INSERT INTO students (userId, grade)` (server.js:122). */
  function InsertStudent(db: Db, userId: int, grade: string): Inserted {
    var id := db.studentSeq + 1;
    Inserted(db.(students := db.students + [StudentRow(id, userId, grade)], studentSeq := id), id)
  }

  /** `INSERT INTO teachers (userId)` (server.js:156). */
  function InsertTeacher(db: Db, userId: int): Inserted {
    var id := db.teacherSeq + 1;
    Inserted(db.(teachers := db.teachers + [TeacherRow(id, userId)], teacherSeq := id), id)
  }

  /** `INSERT INTO subjects (name, teacherId)` (server.js:247). */
  function InsertSubject(db: Db, name: string, teacherId: int): Inserted {
    var id := db.subjectSeq + 1;
    Inserted(db.(subjects := db.subjects + [SubjectRow(id, name, teacherId)], subjectSeq := id), id)
  }

  /** `INSERT INTO courses (subjectId)` (server.js:250). */
  function InsertCourse(db: Db, subjectId: int): Inserted {
    var id := db.courseSeq + 1;
    Inserted(db.(courses := db.courses + [CourseRow(id, subjectId)], courseSeq := id), id)
  }

  /** `INSERT INTO classes (courseId, teacherId, day, startTime, endTime, room)` (server.js:253-263). */
  function InsertClass(db: Db, courseId: int, teacherId: int, day: string, startTime: string,
                       endTime: string, room: string): Inserted {
    var id := db.classSeq + 1;
    Inserted(db.(classes := db.classes + [ClassRow(id, courseId, teacherId, day, startTime, endTime, room)],
                 classSeq := id), id)
  }

  /** The constraint that refuses an enrollment. */
  datatype Violation = PrimaryKey | ForeignKey

  /** What the enrollment INSERT does: add the pair, or refuse it and change nothing. */
  datatype Outcome = Added(db: Db) | Refused(violation: Violation)

  /**
   * `INSERT INTO enrollments (studentId, courseId)` (server.js:226). A repeated pair breaks
   * the primary key, which SQLite checks while it writes the row. A student or course id
   * with no row breaks a foreign key, which SQLite checks at the end of the statement.
   */
  function InsertEnrollment(db: Db, studentId: int, courseId: int): Outcome {
    if EnrollmentRow(studentId, courseId) in db.enrollments then Refused(PrimaryKey)
    else if !HasStudent(db.students, studentId) || !HasCourse(db.courses, courseId) then Refused(ForeignKey)
    else Added(db.(enrollments := db.enrollments + [EnrollmentRow(studentId, courseId)]))
  }
}
