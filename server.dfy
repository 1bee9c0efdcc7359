/**
 * The server's shared database handle as an object: the seven tables and the six
 * AUTOINCREMENT counters are fields that the handlers update one INSERT at a time, as
 * server.js does through better-sqlite3. Each statement and each writing handler is a
 * method whose new state is the one the corresponding function of module Statements or
 * Api describes; the invariant `Valid` is kept by all of them.
 */
module Server {
  import opened Wrappers
  import opened Schema
  import Statements
  import opened Credentials
  import Api
  import Properties

  class Store {
    var users: seq<UserRow>
    var students: seq<StudentRow>
    var teachers: seq<TeacherRow>
    var subjects: seq<SubjectRow>
    var courses: seq<CourseRow>
    var classes: seq<ClassRow>
    var enrollments: seq<EnrollmentRow>
    var userSeq: nat
    var studentSeq: nat
    var teacherSeq: nat
    var subjectSeq: nat
    var courseSeq: nat
    var classSeq: nat

    /** The password hashing and token functions, with the server's fixed secret. */
    const crypto: Crypto

    /** The database the fields hold. */
    function Tables(): Db
      reads this
    {
      Db(users, students, teachers, subjects, courses, classes, enrollments,
         userSeq, studentSeq, teacherSeq, subjectSeq, courseSeq, classSeq)
    }

    ghost predicate Valid()
      reads this
    {
      Consistent(Tables()) && Sound(crypto)
    }

    /** Opening a new database file: every `CREATE TABLE IF NOT EXISTS` creates an empty table. */
    constructor (crypto: Crypto)
      requires Sound(crypto)
      ensures Valid() && Tables() == Empty && this.crypto == crypto
    {
      users, students, teachers, subjects, courses, classes, enrollments := [], [], [], [], [], [], [];
      userSeq, studentSeq, teacherSeq, subjectSeq, courseSeq, classSeq := 0, 0, 0, 0, 0, 0;
      this.crypto := crypto;
      EmptyConsistent();
    }

    // -------------------------------------------------------------------------
    // Statements

    /** `INSERT INTO users`: refused when the email is taken, else the next id. */
    method InsertUser(name: string, email: string, password: string, role: Role) returns (rowid: Option<int>)
      modifies this
      ensures match Statements.InsertUser(old(Tables()), name, email, password, role)
        case None => rowid == None && Tables() == old(Tables())
        case Some(ins) => rowid == Some(ins.rowid) && Tables() == ins.db
    {
      if Statements.EmailTaken(users, email) {
        return None;
      }
      userSeq := userSeq + 1;
      users := users + [UserRow(userSeq, name, email, password, role)];
      rowid := Some(userSeq);
    }

    method InsertStudent(userId: int, grade: string) returns (rowid: int)
      modifies this
      ensures Statements.InsertStudent(old(Tables()), userId, grade) == Statements.Inserted(Tables(), rowid)
    {
      studentSeq := studentSeq + 1;
      students := students + [StudentRow(studentSeq, userId, grade)];
      rowid := studentSeq;
    }

    method InsertTeacher(userId: int) returns (rowid: int)
      modifies this
      ensures Statements.InsertTeacher(old(Tables()), userId) == Statements.Inserted(Tables(), rowid)
    {
      teacherSeq := teacherSeq + 1;
      teachers := teachers + [TeacherRow(teacherSeq, userId)];
      rowid := teacherSeq;
    }

    method InsertSubject(name: string, teacherId: int) returns (rowid: int)
      modifies this
      ensures Statements.InsertSubject(old(Tables()), name, teacherId) == Statements.Inserted(Tables(), rowid)
    {
      subjectSeq := subjectSeq + 1;
      subjects := subjects + [SubjectRow(subjectSeq, name, teacherId)];
      rowid := subjectSeq;
    }

    method InsertCourse(subjectId: int) returns (rowid: int)
      modifies this
      ensures Statements.InsertCourse(old(Tables()), subjectId) == Statements.Inserted(Tables(), rowid)
    {
      courseSeq := courseSeq + 1;
      courses := courses + [CourseRow(courseSeq, subjectId)];
      rowid := courseSeq;
    }

    method InsertClass(courseId: int, teacherId: int, day: string, startTime: string, endTime: string, room: string)
      returns (rowid: int)
      modifies this
      ensures Statements.InsertClass(old(Tables()), courseId, teacherId, day, startTime, endTime, room)
              == Statements.Inserted(Tables(), rowid)
    {
      classSeq := classSeq + 1;
      classes := classes + [ClassRow(classSeq, courseId, teacherId, day, startTime, endTime, room)];
      rowid := classSeq;
    }

    /**
     * `INSERT INTO enrollments`: refused, with the constraint it breaks, when the pair is
     * already present or the student or course row is missing.
     */
    method InsertEnrollment(studentId: int, courseId: int) returns (refusal: Option<Statements.Violation>)
      modifies this
      ensures match Statements.InsertEnrollment(old(Tables()), studentId, courseId)
        case Refused(v) => refusal == Some(v) && Tables() == old(Tables())
        case Added(db) => refusal == None && Tables() == db
    {
      if EnrollmentRow(studentId, courseId) in enrollments {
        return Some(Statements.PrimaryKey);
      }
      if !HasStudent(students, studentId) || !HasCourse(courses, courseId) {
        return Some(Statements.ForeignKey);
      }
      enrollments := enrollments + [EnrollmentRow(studentId, courseId)];
      refusal := None;
    }

    // -------------------------------------------------------------------------
    // Handlers

    /** Admin seeding at start-up (server.js:72-79). */
    method SeedAdmin()
      requires Valid()
      modifies this
      ensures Valid() && Tables() == Api.SeedAdmin(old(Tables()), crypto)
    {
      var existing := UserByEmail(users, Api.AdminEmail);
      if existing.None? {
        var hashed := crypto.hash(Api.AdminPassword);
        var rowid := InsertUser("Admin", Api.AdminEmail, hashed, Admin);
      }
      Properties.SeedAdminKeepsConsistent(old(Tables()), crypto);
    }

    /** POST /api/auth/register (server.js:116-128). */
    method Register(name: string, email: string, password: string, grade: string) returns (response: Api.Response)
      requires Valid()
      modifies this
      ensures Valid()
      ensures Api.Step(Tables(), response) == Api.Register(old(Tables()), crypto, name, email, password, grade)
    {
      var hashed := crypto.hash(password);
      var userId := InsertUser(name, email, hashed, Student);
      if userId.None? {
        response := Api.BadRequest(Api.UniqueConstraint);
      } else {
        var studentId := InsertStudent(userId.value, grade);
        response := Api.Response(201, Api.Message("Registration successful"));
      }
      Properties.RegisterKeepsConsistent(old(Tables()), crypto, name, email, password, grade);
    }

    /** POST /api/teachers (server.js:146-162). */
    method AddTeacher(header: Option<string>, name: string, email: string, password: string)
      returns (response: Api.Response)
      requires Valid()
      modifies this
      ensures Valid()
      ensures Api.Step(Tables(), response) == Api.AddTeacher(old(Tables()), crypto, header, name, email, password)
    {
      var caller := Api.Authenticate(users, crypto, header);
      if caller.None? {
        return Api.Unauthenticated;
      }
      if caller.value.role != Admin {
        return Api.NotAuthorized;
      }
      var hashed := crypto.hash(password);
      var userId := InsertUser(name, email, hashed, Teacher);
      if userId.None? {
        response := Api.BadRequest(Api.UniqueConstraint);
      } else {
        var teacherId := InsertTeacher(userId.value);
        response := Api.Response(201, Api.Message("Teacher added successfully"));
      }
      Properties.AddTeacherKeepsConsistent(old(Tables()), crypto, header, name, email, password);
    }

    /** POST /api/students/enroll (server.js:217-232). */
    method Enroll(header: Option<string>, courseId: int) returns (response: Api.Response)
      requires Valid()
      modifies this
      ensures Valid()
      ensures Api.Step(Tables(), response) == Api.Enroll(old(Tables()), crypto, header, courseId)
    {
      var caller := Api.Authenticate(users, crypto, header);
      if caller.None? {
        return Api.Unauthenticated;
      }
      if caller.value.role != Student {
        return Api.NotAuthorized;
      }
      var student := StudentByUser(students, caller.value.id);
      if student.None? {
        return Api.BadRequest(Api.UndefinedStudent);
      }
      var refusal := InsertEnrollment(student.value.id, courseId);
      if refusal.None? {
        response := Api.Response(200, Api.Message("Enrolled successfully"));
      } else if refusal.value.PrimaryKey? {
        response := Api.BadRequest(Api.PrimaryKeyConstraint);
      } else {
        response := Api.BadRequest(Api.ForeignKeyConstraint);
      }
      Properties.EnrollKeepsConsistent(old(Tables()), crypto, header, courseId);
    }

    /** A start of the server (server.js:72-79, 268-273): the administrator, then the sample data. */
    method Start()
      requires Valid()
      modifies this
      ensures Valid() && Tables() == Api.Start(old(Tables()), crypto)
    {
      SeedAdmin();
      AddSampleData();
    }

    /** addSampleData (server.js:235-266): the first teacher row, if any, receives the sample items. */
    method AddSampleData()
      requires Valid()
      modifies this
      ensures Valid() && Tables() == Api.AddSampleData(old(Tables()))
    {
      Properties.AddSampleDataKeepsConsistent(Tables());
      if |teachers| == 0 {
        return;
      }
      var teacher := teachers[0];
      AddSampleItems(teacher.id);
    }

    /** The forEach of addSampleData (server.js:245-264): per subject, a subject, a course and a class row. */
    method AddSampleItems(teacherId: int)
      modifies this
      ensures Tables() == Api.SampleItems(old(Tables()), teacherId, |Api.SubjectNames|)
    {
      for i := 0 to |Api.SubjectNames|
        invariant Tables() == Api.SampleItems(old(Tables()), teacherId, i)
      {
        var subjectId := InsertSubject(Api.SubjectNames[i], teacherId);
        var courseId := InsertCourse(subjectId);
        var classId := InsertClass(courseId, teacherId, "Monday", Api.Times[i], Api.EndTime(i), Api.Rooms[i]);
      }
    }
  }
}
