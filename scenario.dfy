/**
 * The server's life on a new database file, over two starts. In the first run the
 * administrator is seeded, logs in and adds a teacher; no sample data is added, since
 * there was no teacher when the server started. The server is then started again, which
 * adds the sample data for that teacher. In the second run a student registers and logs
 * in, sees the Mathematics course, enrolls in it and finds its Monday class in the
 * schedule; a course id that names no course is refused.
 */
module Scenario {
  import opened Wrappers
  import opened Schema
  import opened Credentials
  import opened Queries
  import opened Api
  import opened Properties
  import Statements

  function AdminRow(c: Crypto): UserRow {
    UserRow(1, "Admin", AdminEmail, c.hash(AdminPassword), Admin)
  }

  function Ada(c: Crypto): UserRow {
    UserRow(2, "Ada", "ada@school.com", c.hash("pw"), Teacher)
  }

  function Sam(c: Crypto): UserRow {
    UserRow(3, "Sam", "sam@school.com", c.hash("secret"), Student)
  }

  const Maths := SubjectRow(1, "Mathematics", 1)
  const MathsCourse := CourseRow(1, 1)
  const Monday := ClassRow(1, 1, 1, "Monday", "09:00", "10:00", "101")

  /** The header a client sends after logging in as user `id`. */
  function Bearer(c: Crypto, id: int): Option<string> {
    Some(BearerPrefix + c.sign(id))
  }

  /** In the first run, the seeded administrator logs in and adds the teacher Ada, who gets teacher row 1. */
  lemma StaffStage(c: Crypto)
    requires Sound(c)
    ensures Login(Start(Empty, c), c, AdminEmail, AdminPassword) == Response(200, Session(c.sign(1), Admin))
    ensures
      var db := AddTeacher(Start(Empty, c), c, Bearer(c, 1), "Ada", "ada@school.com", "pw");
      && db.response.status == 201
      && db.db.users == [AdminRow(c), Ada(c)] && db.db.userSeq == 2
      && db.db.teachers == [TeacherRow(1, 2)]
      && db.db.students == [] && db.db.studentSeq == 0 && db.db.enrollments == []
      && db.db.subjects == [] && db.db.courses == [] && db.db.classes == []
      && db.db.subjectSeq == 0 && db.db.courseSeq == 0 && db.db.classSeq == 0
  {
    FirstStartSeedsOnlyAdmin(c);
    var db0 := Start(Empty, c);
    SeedAdminOutcome(Empty, c);
    assert db0 == Empty.(users := [AdminRow(c)], userSeq := 1);
    SeedAdminThenLogin(Empty, c);
    StripBearerOfHeader(c.sign(1));
    assert Authenticate(db0.users, c, Bearer(c, 1)) == Some(AdminRow(c));
    assert !Statements.EmailTaken(db0.users, "ada@school.com");
    AddTeacherOutcome(db0, c, Bearer(c, 1), "Ada", "ada@school.com", "pw");
  }

  /**
   * Starting the server again leaves the administrator alone and adds the sample data for
   * teacher row 1: Mathematics, its course 1 and its Monday class, among five courses.
   */
  lemma RestartStage(db: Db, c: Crypto)
    requires db.users == [AdminRow(c), Ada(c)]
    requires db.teachers == [TeacherRow(1, 2)]
    requires db.subjects == [] && db.courses == [] && db.classes == []
    requires db.subjectSeq == 0 && db.courseSeq == 0 && db.classSeq == 0
    ensures
      var db' := Start(db, c);
      && db'.users == db.users && db'.userSeq == db.userSeq
      && db'.teachers == db.teachers && db'.students == db.students
      && db'.studentSeq == db.studentSeq && db'.enrollments == db.enrollments
      && Maths in db'.subjects && MathsCourse in db'.courses && Monday in db'.classes
      && forall co :: co in db'.courses ==> co.id <= |SubjectNames|
  {
    SeedAdminOutcome(db, c);
    assert SeedAdmin(db, c) == db by {
      assert db.users[0].email == AdminEmail;
    }
    AddSampleDataRows(db);
    var db' := Start(db, c);
    assert db'.subjects[0] == Maths && db'.courses[0] == MathsCourse && db'.classes[0] == Monday;
    forall co | co in db'.courses ensures co.id <= |SubjectNames| {
      var k :| 0 <= k < |db'.courses| && db'.courses[k] == co;
    }
  }

  /** Sam registers, logs in and is offered Mathematics taught by Ada. */
  lemma StudentStage(db: Db, c: Crypto)
    requires Sound(c)
    requires db.users == [AdminRow(c), Ada(c)] && db.userSeq == 2
    requires db.teachers == [TeacherRow(1, 2)]
    requires db.students == [] && db.studentSeq == 0
    requires Maths in db.subjects && MathsCourse in db.courses
    requires forall co :: co in db.courses ==> co.id <= |SubjectNames|
    ensures
      var db' := Register(db, c, "Sam", "sam@school.com", "secret", "10").db;
      && db' == db.(users := db.users + [Sam(c)], userSeq := 3,
                    students := [StudentRow(1, 3, "10")], studentSeq := 1)
      && Login(db', c, "sam@school.com", "secret") == Response(200, Session(c.sign(3), Student))
      && AvailableCourses(db', c, Bearer(c, 3)).body.Courses?
      && CourseOffer(MathsCourse, "Mathematics", "Ada") in AvailableCourses(db', c, Bearer(c, 3)).body.offers
  {
    assert !Statements.EmailTaken(db.users, "sam@school.com");
    RegisterOutcome(db, c, "Sam", "sam@school.com", "secret", "10");
    RegisterThenLogin(db, c, "Sam", "sam@school.com", "secret", "10");
    var db' := Register(db, c, "Sam", "sam@school.com", "secret", "10").db;
    assert db'.users == [AdminRow(c), Ada(c), Sam(c)];
    StripBearerOfHeader(c.sign(3));
    assert Authenticate(db'.users, c, Bearer(c, 3)) == Some(Sam(c));
    assert TaughtBy(Maths, "Ada", db'.teachers, db'.users) by {
      assert TeacherRow(1, 2) in db'.teachers && Ada(c) in db'.users;
    }
  }

  /**
   * Sam enrolls in course 1, and the schedule then holds its Monday class. Course 99 names
   * no course row, so that enrollment is refused by the foreign key.
   */
  lemma EnrollStage(db: Db, c: Crypto)
    requires Sound(c)
    requires db.users == [AdminRow(c), Ada(c), Sam(c)]
    requires db.students == [StudentRow(1, 3, "10")] && db.enrollments == []
    requires Maths in db.subjects && MathsCourse in db.courses && Monday in db.classes
    requires forall co :: co in db.courses ==> co.id <= |SubjectNames|
    ensures Enroll(db, c, Bearer(c, 3), 99) == Step(db, BadRequest(ForeignKeyConstraint))
    ensures Enroll(db, c, Bearer(c, 3), 1).response.status == 200
    ensures
      var db' := Enroll(db, c, Bearer(c, 3), 1).db;
      && StudentSchedule(db', c, Bearer(c, 3)).body.Schedule?
      && ScheduleEntry(Monday, "Mathematics") in StudentSchedule(db', c, Bearer(c, 3)).body.entries
  {
    StripBearerOfHeader(c.sign(3));
    assert Authenticate(db.users, c, Bearer(c, 3)) == Some(Sam(c));
    assert StudentByUser(db.students, 3) == Some(StudentRow(1, 3, "10"));
    EnrollOutcome(db, c, Bearer(c, 3), 99, StudentRow(1, 3, "10"));
    assert !HasCourse(db.courses, 99) by {
      forall k | 0 <= k < |db.courses| ensures db.courses[k].id != 99 {
        assert db.courses[k] in db.courses;
      }
    }
    EnrollOutcome(db, c, Bearer(c, 3), 1, StudentRow(1, 3, "10"));
    assert HasCourse(db.courses, 1) by {
      var k :| 0 <= k < |db.courses| && db.courses[k] == MathsCourse;
    }
    var db' := Enroll(db, c, Bearer(c, 3), 1).db;
    assert db' == db.(enrollments := [EnrollmentRow(1, 1)]);
    assert Resolves(Monday, "Mathematics", db'.courses, db'.subjects) by {
      assert MathsCourse in db'.courses && Maths in db'.subjects;
    }
  }

  /** The database after each step: the first run, the restart, then the second run. */
  function Staffed(c: Crypto): Db {
    AddTeacher(Start(Empty, c), c, Bearer(c, 1), "Ada", "ada@school.com", "pw").db
  }

  function Restarted(c: Crypto): Db {
    Start(Staffed(c), c)
  }

  function Registered(c: Crypto): Db {
    Register(Restarted(c), c, "Sam", "sam@school.com", "secret", "10").db
  }

  function Enrolled(c: Crypto): Db {
    Enroll(Registered(c), c, Bearer(c, 3), 1).db
  }

  /** The first run and the restart: no sample data before it, Mathematics after it. */
  lemma RestartedScenario(c: Crypto)
    requires Sound(c)
    ensures Login(Start(Empty, c), c, AdminEmail, AdminPassword) == Response(200, Session(c.sign(1), Admin))
    ensures Start(Empty, c).subjects == [] && Maths in Restarted(c).subjects
    ensures Restarted(c).users == [AdminRow(c), Ada(c)] && Restarted(c).userSeq == 2
    ensures Restarted(c).teachers == [TeacherRow(1, 2)]
    ensures Restarted(c).students == [] && Restarted(c).studentSeq == 0 && Restarted(c).enrollments == []
    ensures MathsCourse in Restarted(c).courses && Monday in Restarted(c).classes
    ensures forall co :: co in Restarted(c).courses ==> co.id <= |SubjectNames|
  {
    StaffStage(c);
    FirstStartSeedsOnlyAdmin(c);
    RestartStage(Staffed(c), c);
  }

  /** The second run up to Sam's registration: the tables Sam enrolls against, and what Sam sees before enrolling. */
  lemma RegisteredScenario(c: Crypto)
    requires Sound(c)
    ensures Registered(c).users == [AdminRow(c), Ada(c), Sam(c)]
    ensures Registered(c).students == [StudentRow(1, 3, "10")] && Registered(c).enrollments == []
    ensures Maths in Registered(c).subjects && MathsCourse in Registered(c).courses && Monday in Registered(c).classes
    ensures forall co :: co in Registered(c).courses ==> co.id <= |SubjectNames|
    ensures Login(Registered(c), c, "sam@school.com", "secret") == Response(200, Session(c.sign(3), Student))
    ensures AvailableCourses(Registered(c), c, Bearer(c, 3)).body.Courses?
    ensures CourseOffer(MathsCourse, "Mathematics", "Ada") in AvailableCourses(Registered(c), c, Bearer(c, 3)).body.offers
  {
    RestartedScenario(c);
    StudentStage(Restarted(c), c);
  }

  /** Both runs, from the new database file to Sam's schedule. */
  lemma EnrollmentScenario(c: Crypto)
    requires Sound(c)
    ensures Login(Start(Empty, c), c, AdminEmail, AdminPassword) == Response(200, Session(c.sign(1), Admin))
    ensures Start(Empty, c).subjects == [] && Maths in Restarted(c).subjects
    ensures Login(Registered(c), c, "sam@school.com", "secret") == Response(200, Session(c.sign(3), Student))
    ensures AvailableCourses(Registered(c), c, Bearer(c, 3)).body.Courses?
    ensures CourseOffer(MathsCourse, "Mathematics", "Ada") in AvailableCourses(Registered(c), c, Bearer(c, 3)).body.offers
    ensures Enroll(Registered(c), c, Bearer(c, 3), 99) == Step(Registered(c), BadRequest(ForeignKeyConstraint))
    ensures Enroll(Registered(c), c, Bearer(c, 3), 1).response.status == 200
    ensures StudentSchedule(Enrolled(c), c, Bearer(c, 3)).body.Schedule?
    ensures ScheduleEntry(Monday, "Mathematics") in StudentSchedule(Enrolled(c), c, Bearer(c, 3)).body.entries
  {
    RestartedScenario(c);
    RegisteredScenario(c);
    EnrollStage(Registered(c), c);
  }
}
