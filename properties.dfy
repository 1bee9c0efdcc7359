/**
 * What the handlers promise, stated over the handler functions of module Api: which
 * tables change and which do not, the order of the guards, the round trips through the
 * credential functions, exact descriptions of the query answers, and the invariant
 * `Consistent` that every writing handler keeps.
 */
module Properties {
  import opened Wrappers
  import opened Schema
  import opened Statements
  import opened Credentials
  import opened Queries
  import opened Api

  // ---------------------------------------------------------------------------
  // register

  /**
   * A taken email makes the users insert fail before the students insert runs, so
   * nothing changes; otherwise exactly one STUDENT user and one student row pointing at
   * it are appended, and no other table changes.
   */
  lemma RegisterOutcome(db: Db, c: Crypto, name: string, email: string, password: string, grade: string)
    ensures EmailTaken(db.users, email) ==>
      Register(db, c, name, email, password, grade) == Step(db, BadRequest(UniqueConstraint))
    ensures !EmailTaken(db.users, email) ==>
      var uid := db.userSeq + 1;
      var sid := db.studentSeq + 1;
      Register(db, c, name, email, password, grade) ==
        Step(db.(users := db.users + [UserRow(uid, name, email, c.hash(password), Student)], userSeq := uid,
                 students := db.students + [StudentRow(sid, uid, grade)], studentSeq := sid),
             Response(201, Message("Registration successful")))
  {
  }

  lemma RegisterKeepsConsistent(db: Db, c: Crypto, name: string, email: string, password: string, grade: string)
    requires Consistent(db)
    ensures Consistent(Register(db, c, name, email, password, grade).db)
  {
    if !EmailTaken(db.users, email) {
      var u := UserRow(db.userSeq + 1, name, email, c.hash(password), Student);
      var s := StudentRow(db.studentSeq + 1, db.userSeq + 1, grade);
      var db' := db.(users := db.users + [u], userSeq := u.id, students := db.students + [s], studentSeq := s.id);
      assert Register(db, c, name, email, password, grade).db == db';
      assert UsersNumbered(db'.users, db'.userSeq);
      assert StudentsNumbered(db'.students, db'.studentSeq);
      AppendUserKeepsEmailsUnique(db.users, u);
      AppendStudentKeepsLinked(db.users, db.students, db.teachers, u, s);
    }
  }

  // ---------------------------------------------------------------------------
  // login

  /**
   * 401 when no user has the email or the password does not check against the stored
   * hash; otherwise a token that verifies to that user's id, and that user's role.
   */
  lemma LoginOutcome(db: Db, c: Crypto, email: string, password: string)
    requires Sound(c)
    ensures UserByEmail(db.users, email).None? ==> Login(db, c, email, password) == InvalidCredentials
    ensures forall u :: UserByEmail(db.users, email) == Some(u) && !c.check(password, u.password) ==>
      Login(db, c, email, password) == InvalidCredentials
    ensures forall u :: UserByEmail(db.users, email) == Some(u) && c.check(password, u.password) ==>
      Login(db, c, email, password) == Response(200, Session(c.sign(u.id), u.role))
    ensures Login(db, c, email, password).status == 200 ==>
      exists u :: u in db.users && u.email == email && c.check(password, u.password) &&
        Login(db, c, email, password).body == Session(c.sign(u.id), u.role) && c.verify(c.sign(u.id)) == Some(u.id)
  {
  }

  /** The token a successful login issues, sent back as `Bearer <token>`, authenticates as that user. */
  lemma LoginThenAuthenticate(db: Db, c: Crypto, email: string, password: string)
    requires Sound(c) && Consistent(db)
    requires Login(db, c, email, password).status == 200
    ensures Authenticate(db.users, c, Some(BearerPrefix + Login(db, c, email, password).body.token))
            == UserByEmail(db.users, email)
  {
    var u := UserByEmail(db.users, email).value;
    var token := c.sign(u.id);
    StripBearerOfHeader(token);
    assert c.verify(token) == Some(u.id);
    var i :| 0 <= i < |db.users| && db.users[i] == u;
    UserByIdNumbered(db.users, db.userSeq, u.id);
  }

  /** A student who has just registered can log in with the same email and password. */
  lemma RegisterThenLogin(db: Db, c: Crypto, name: string, email: string, password: string, grade: string)
    requires Sound(c)
    requires !EmailTaken(db.users, email)
    ensures Login(Register(db, c, name, email, password, grade).db, c, email, password)
            == Response(200, Session(c.sign(db.userSeq + 1), Student))
  {
    var db' := Register(db, c, name, email, password, grade).db;
    var newUser := UserRow(db.userSeq + 1, name, email, c.hash(password), Student);
    assert db'.users == db.users + [newUser];
    assert forall u :: u in db'.users && u.email == email ==> u == newUser;
    assert c.check(password, c.hash(password));
  }

  // ---------------------------------------------------------------------------
  // Guards: authentication before the role check, the role check before any effect

  /**
   * A request that does not authenticate gets 401 from every guarded route, and the
   * database is left as it was.
   */
  lemma UnauthenticatedChangesNothing(db: Db, c: Crypto, header: Option<string>,
                                      name: string, email: string, password: string, courseId: int)
    requires Authenticate(db.users, c, header).None?
    ensures ListTeachers(db, c, header) == Unauthenticated
    ensures AddTeacher(db, c, header, name, email, password) == Step(db, Unauthenticated)
    ensures TeacherSchedule(db, c, header) == Unauthenticated
    ensures StudentSchedule(db, c, header) == Unauthenticated
    ensures AvailableCourses(db, c, header) == Unauthenticated
    ensures Enroll(db, c, header, courseId) == Step(db, Unauthenticated)
  {
  }

  /**
   * An authenticated caller without the route's role gets 403, and the database is left
   * as it was.
   */
  lemma WrongRoleChangesNothing(db: Db, c: Crypto, header: Option<string>, u: UserRow,
                                name: string, email: string, password: string, courseId: int)
    requires Authenticate(db.users, c, header) == Some(u)
    ensures u.role != Admin ==> ListTeachers(db, c, header) == NotAuthorized
    ensures u.role != Admin ==> AddTeacher(db, c, header, name, email, password) == Step(db, NotAuthorized)
    ensures u.role != Teacher ==> TeacherSchedule(db, c, header) == NotAuthorized
    ensures u.role != Student ==> StudentSchedule(db, c, header) == NotAuthorized
    ensures u.role != Student ==> AvailableCourses(db, c, header) == NotAuthorized
    ensures u.role != Student ==> Enroll(db, c, header, courseId) == Step(db, NotAuthorized)
  {
  }

  // ---------------------------------------------------------------------------
  // POST /api/teachers

  /**
   * Called by an ADMIN: a taken email changes nothing and gives 400; otherwise exactly
   * one TEACHER user and one teacher row pointing at it are appended.
   */
  lemma AddTeacherOutcome(db: Db, c: Crypto, header: Option<string>, name: string, email: string, password: string)
    requires Authenticate(db.users, c, header).Some? && Authenticate(db.users, c, header).value.role == Admin
    ensures EmailTaken(db.users, email) ==>
      AddTeacher(db, c, header, name, email, password) == Step(db, BadRequest(UniqueConstraint))
    ensures !EmailTaken(db.users, email) ==>
      var uid := db.userSeq + 1;
      var tid := db.teacherSeq + 1;
      AddTeacher(db, c, header, name, email, password) ==
        Step(db.(users := db.users + [UserRow(uid, name, email, c.hash(password), Teacher)], userSeq := uid,
                 teachers := db.teachers + [TeacherRow(tid, uid)], teacherSeq := tid),
             Response(201, Message("Teacher added successfully")))
  {
  }

  lemma AddTeacherKeepsConsistent(db: Db, c: Crypto, header: Option<string>, name: string, email: string, password: string)
    requires Consistent(db)
    ensures Consistent(AddTeacher(db, c, header, name, email, password).db)
  {
    var auth := Authenticate(db.users, c, header);
    if auth.Some? && auth.value.role == Admin && !EmailTaken(db.users, email) {
      var u := UserRow(db.userSeq + 1, name, email, c.hash(password), Teacher);
      var t := TeacherRow(db.teacherSeq + 1, db.userSeq + 1);
      var db' := db.(users := db.users + [u], userSeq := u.id, teachers := db.teachers + [t], teacherSeq := t.id);
      assert AddTeacher(db, c, header, name, email, password).db == db';
      assert UsersNumbered(db'.users, db'.userSeq);
      assert TeachersNumbered(db'.teachers, db'.teacherSeq);
      AppendUserKeepsEmailsUnique(db.users, u);
      AppendTeacherKeepsLinked(db.users, db.students, db.teachers, u, t);
    }
  }

  // ---------------------------------------------------------------------------
  // POST /api/students/enroll

  /**
   * Called by a STUDENT with a student row: a pair already present gives 400 and changes
   * nothing; a course id that names no course row gives 400 and changes nothing; any
   * other pair is appended.
   */
  lemma EnrollOutcome(db: Db, c: Crypto, header: Option<string>, courseId: int, s: StudentRow)
    requires Authenticate(db.users, c, header).Some?
    requires Authenticate(db.users, c, header).value.role == Student
    requires StudentByUser(db.students, Authenticate(db.users, c, header).value.id) == Some(s)
    ensures EnrollmentRow(s.id, courseId) in db.enrollments ==>
      Enroll(db, c, header, courseId) == Step(db, BadRequest(PrimaryKeyConstraint))
    ensures EnrollmentRow(s.id, courseId) !in db.enrollments && !HasCourse(db.courses, courseId) ==>
      Enroll(db, c, header, courseId) == Step(db, BadRequest(ForeignKeyConstraint))
    ensures EnrollmentRow(s.id, courseId) !in db.enrollments && HasCourse(db.courses, courseId) ==>
      Enroll(db, c, header, courseId) ==
        Step(db.(enrollments := db.enrollments + [EnrollmentRow(s.id, courseId)]), Response(200, Message("Enrolled successfully")))
  {
    var k :| 0 <= k < |db.students| && db.students[k] == s;
    assert HasStudent(db.students, s.id);
  }

  /** Whatever the request, the enrollments table never holds the same pair twice. */
  lemma EnrollKeepsPairsUnique(db: Db, c: Crypto, header: Option<string>, courseId: int)
    requires PairsUnique(db.enrollments)
    ensures PairsUnique(Enroll(db, c, header, courseId).db.enrollments)
  {
    var es := Enroll(db, c, header, courseId).db.enrollments;
    if es != db.enrollments {
      var s := StudentByUser(db.students, Authenticate(db.users, c, header).value.id).value;
      var pair := EnrollmentRow(s.id, courseId);
      assert es == db.enrollments + [pair] && pair !in db.enrollments;
      forall i, j | 0 <= i < j < |es| ensures es[i] != es[j] {
        if j == |db.enrollments| {
          assert es[i] in db.enrollments;
        }
      }
    }
  }

  /** A successful enrollment appends one new pair for an existing student row and an existing course row. */
  lemma EnrollEffect(db: Db, c: Crypto, header: Option<string>, courseId: int)
    requires StudentsNumbered(db.students, db.studentSeq) && CoursesNumbered(db.courses, db.courseSeq)
    ensures var db' := Enroll(db, c, header, courseId).db;
      db' == db ||
      exists sid :: 1 <= sid <= |db.students| && 1 <= courseId <= |db.courses| &&
        EnrollmentRow(sid, courseId) !in db.enrollments &&
        db' == db.(enrollments := db.enrollments + [EnrollmentRow(sid, courseId)])
  {
    var db' := Enroll(db, c, header, courseId).db;
    if db' != db {
      var s := StudentByUser(db.students, Authenticate(db.users, c, header).value.id).value;
      var k :| 0 <= k < |db.students| && db.students[k] == s;
      assert s.id == k + 1;
      var j :| 0 <= j < |db.courses| && db.courses[j].id == courseId;
      assert courseId == j + 1;
    }
  }

  lemma EnrollKeepsConsistent(db: Db, c: Crypto, header: Option<string>, courseId: int)
    requires Consistent(db)
    ensures Consistent(Enroll(db, c, header, courseId).db)
  {
    EnrollEffect(db, c, header, courseId);
    var db' := Enroll(db, c, header, courseId).db;
    if db' != db {
      var sid :| 1 <= sid <= |db.students| && 1 <= courseId <= |db.courses| &&
        EnrollmentRow(sid, courseId) !in db.enrollments &&
        db' == db.(enrollments := db.enrollments + [EnrollmentRow(sid, courseId)]);
      AppendEnrollmentKeepsConsistent(db, EnrollmentRow(sid, courseId));
    }
  }

  /** Enrolling twice in the same course: the first call succeeds, the second gives 400 and changes nothing. */
  lemma EnrollTwice(db: Db, c: Crypto, header: Option<string>, courseId: int)
    requires Enroll(db, c, header, courseId).response.status == 200
    ensures var first := Enroll(db, c, header, courseId).db;
      Enroll(first, c, header, courseId) == Step(first, BadRequest(PrimaryKeyConstraint))
  {
    var first := Enroll(db, c, header, courseId).db;
    var s := StudentByUser(db.students, Authenticate(db.users, c, header).value.id).value;
    assert first == db.(enrollments := db.enrollments + [EnrollmentRow(s.id, courseId)]);
    assert EnrollmentRow(s.id, courseId) in first.enrollments;
  }

  // ---------------------------------------------------------------------------
  // Reads

  /**
   * In a consistent database, a TEACHER caller always has a teacher row, so the schedule
   * route answers 200 with exactly the classes carrying that row's id whose course and
   * subject rows exist.
   */
  lemma TeacherScheduleExact(db: Db, c: Crypto, header: Option<string>, u: UserRow)
    requires TeachersCovered(db.users, db.teachers) && TeacherOwnersDistinct(db.teachers)
    requires Authenticate(db.users, c, header) == Some(u) && u.role == Teacher
    ensures TeacherSchedule(db, c, header).status == 200 && TeacherSchedule(db, c, header).body.Schedule?
    ensures forall t, e :: t in db.teachers && t.userId == u.id ==>
      (e in TeacherSchedule(db, c, header).body.entries <==>
         e.slot in db.classes && e.slot.teacherId == t.id && Resolves(e.slot, e.subjectName, db.courses, db.subjects))
  {
    TeacherProfileUnique(db.users, db.teachers, u);
  }

  /**
   * In a consistent database, a STUDENT caller always has a student row, so the schedule
   * route answers 200 with exactly the classes of the courses that row is enrolled in,
   * provided the course and its subject rows exist.
   */
  lemma StudentScheduleExact(db: Db, c: Crypto, header: Option<string>, u: UserRow)
    requires StudentsCovered(db.users, db.students) && StudentOwnersDistinct(db.students)
    requires Authenticate(db.users, c, header) == Some(u) && u.role == Student
    ensures StudentSchedule(db, c, header).status == 200 && StudentSchedule(db, c, header).body.Schedule?
    ensures forall s, e :: s in db.students && s.userId == u.id ==>
      (e in StudentSchedule(db, c, header).body.entries <==>
         e.slot in db.classes && EnrollmentRow(s.id, e.slot.courseId) in db.enrollments &&
         Resolves(e.slot, e.subjectName, db.courses, db.subjects))
  {
    StudentProfileUnique(db.users, db.students, u);
  }

  /** In a consistent database a STUDENT caller's enrollment never fails for want of a student row. */
  lemma EnrollFindsStudent(db: Db, c: Crypto, header: Option<string>, u: UserRow, courseId: int)
    requires StudentsCovered(db.users, db.students) && StudentOwnersDistinct(db.students)
    requires Authenticate(db.users, c, header) == Some(u) && u.role == Student
    ensures Enroll(db, c, header, courseId).response != BadRequest(UndefinedStudent)
  {
    StudentProfileUnique(db.users, db.students, u);
  }

  /** The ADMIN listing and the STUDENT course list answer 200 with the full joins. */
  lemma ListingsAnswer(db: Db, c: Crypto, header: Option<string>, u: UserRow)
    requires Authenticate(db.users, c, header) == Some(u)
    ensures u.role == Admin ==>
      ListTeachers(db, c, header) == Response(200, Teachers(TeacherListingRows(db.users, db.teachers)))
    ensures u.role == Student ==>
      AvailableCourses(db, c, header) == Response(200, Courses(AvailableCourseRows(db.courses, db.subjects, db.teachers, db.users)))
  {
  }

  // ---------------------------------------------------------------------------
  // Start-up

  /** The administrator is inserted only when no user has its email; nothing else is touched. */
  lemma SeedAdminOutcome(db: Db, c: Crypto)
    ensures EmailTaken(db.users, AdminEmail) ==> SeedAdmin(db, c) == db
    ensures !EmailTaken(db.users, AdminEmail) ==>
      SeedAdmin(db, c) ==
        db.(users := db.users + [UserRow(db.userSeq + 1, "Admin", AdminEmail, c.hash(AdminPassword), Admin)],
            userSeq := db.userSeq + 1)
  {
  }

  /** Seeding twice is the same as seeding once. */
  lemma SeedAdminIdempotent(db: Db, c: Crypto)
    ensures SeedAdmin(SeedAdmin(db, c), c) == SeedAdmin(db, c)
  {
    var db' := SeedAdmin(db, c);
    if db' != db {
      assert db'.users[|db.users|].email == AdminEmail;
    }
  }

  lemma SeedAdminKeepsConsistent(db: Db, c: Crypto)
    requires Consistent(db)
    ensures Consistent(SeedAdmin(db, c))
  {
    if !EmailTaken(db.users, AdminEmail) {
      var u := UserRow(db.userSeq + 1, "Admin", AdminEmail, c.hash(AdminPassword), Admin);
      var db' := db.(users := db.users + [u], userSeq := u.id);
      assert SeedAdmin(db, c) == db';
      assert UsersNumbered(db'.users, db'.userSeq);
      AppendUserKeepsEmailsUnique(db.users, u);
      AppendAdminKeepsLinked(db.users, db.students, db.teachers, u);
    }
  }

  /** On a database without the administrator, seeding lets `admin@school.com` / `admin123` log in as ADMIN. */
  lemma SeedAdminThenLogin(db: Db, c: Crypto)
    requires Sound(c)
    requires !EmailTaken(db.users, AdminEmail)
    ensures Login(SeedAdmin(db, c), c, AdminEmail, AdminPassword) == Response(200, Session(c.sign(db.userSeq + 1), Admin))
  {
    var u := UserRow(db.userSeq + 1, "Admin", AdminEmail, c.hash(AdminPassword), Admin);
    var db' := SeedAdmin(db, c);
    assert db'.users == db.users + [u];
    assert forall v :: v in db'.users && v.email == AdminEmail ==> v == u;
    assert c.check(AdminPassword, c.hash(AdminPassword));
  }

  /** The first `n` subjects the sample data adds, numbered after `last`. */
  function SampleSubjects(last: int, teacherId: int, n: nat): (r: seq<SubjectRow>)
    requires n <= |SubjectNames|
    ensures |r| == n
  {
    seq(n, k requires 0 <= k < n => SubjectRow(last + k + 1, SubjectNames[k], teacherId))
  }

  /** The first `n` courses, the k-th for the k-th new subject. */
  function SampleCourses(last: int, lastSubject: int, n: nat): (r: seq<CourseRow>)
    ensures |r| == n
  {
    seq(n, k requires 0 <= k < n => CourseRow(last + k + 1, lastSubject + k + 1))
  }

  /** The first `n` classes, the k-th for the k-th new course, on Monday. */
  function SampleClasses(last: int, lastCourse: int, teacherId: int, n: nat): (r: seq<ClassRow>)
    requires n <= |SubjectNames|
    ensures |r| == n
  {
    seq(n, k requires 0 <= k < n => ClassRow(last + k + 1, lastCourse + k + 1, teacherId, "Monday", Times[k], EndTime(k), Rooms[k]))
  }

  /** After `n` iterations, exactly `n` subjects, courses and classes are appended and nothing else changes. */
  lemma {:induction false} SampleItemsRows(db: Db, teacherId: int, n: nat)
    requires n <= |SubjectNames|
    ensures SampleItems(db, teacherId, n) ==
      db.(subjects := db.subjects + SampleSubjects(db.subjectSeq, teacherId, n), subjectSeq := db.subjectSeq + n,
          courses := db.courses + SampleCourses(db.courseSeq, db.subjectSeq, n), courseSeq := db.courseSeq + n,
          classes := db.classes + SampleClasses(db.classSeq, db.courseSeq, teacherId, n), classSeq := db.classSeq + n)
  {
    if n > 0 {
      SampleItemsRows(db, teacherId, n - 1);
      assert SampleSubjects(db.subjectSeq, teacherId, n) ==
        SampleSubjects(db.subjectSeq, teacherId, n - 1) + [SubjectRow(db.subjectSeq + n, SubjectNames[n - 1], teacherId)];
      assert SampleCourses(db.courseSeq, db.subjectSeq, n) ==
        SampleCourses(db.courseSeq, db.subjectSeq, n - 1) + [CourseRow(db.courseSeq + n, db.subjectSeq + n)];
      assert SampleClasses(db.classSeq, db.courseSeq, teacherId, n) ==
        SampleClasses(db.classSeq, db.courseSeq, teacherId, n - 1) +
        [ClassRow(db.classSeq + n, db.courseSeq + n, teacherId, "Monday", Times[n - 1], EndTime(n - 1), Rooms[n - 1])];
    }
  }

  /**
   * With a teacher row present, the five subjects, their five courses and five Monday
   * classes are appended for the first teacher row; otherwise nothing changes.
   */
  lemma AddSampleDataRows(db: Db)
    ensures |db.teachers| == 0 ==> AddSampleData(db) == db
    ensures |db.teachers| > 0 ==>
      var n, tid := |SubjectNames|, db.teachers[0].id;
      AddSampleData(db) ==
        db.(subjects := db.subjects + SampleSubjects(db.subjectSeq, tid, n), subjectSeq := db.subjectSeq + n,
            courses := db.courses + SampleCourses(db.courseSeq, db.subjectSeq, n), courseSeq := db.courseSeq + n,
            classes := db.classes + SampleClasses(db.classSeq, db.courseSeq, tid, n), classSeq := db.classSeq + n)
  {
    if |db.teachers| > 0 {
      SampleItemsRows(db, db.teachers[0].id, |SubjectNames|);
    }
  }

  lemma AddSampleDataKeepsConsistent(db: Db)
    requires Consistent(db)
    ensures Consistent(AddSampleData(db))
  {
    AddSampleDataRows(db);
    var db' := AddSampleData(db);
    if |db.teachers| > 0 {
      assert SubjectsNumbered(db'.subjects, db'.subjectSeq) by {
        forall i | |db.subjects| <= i < |db'.subjects| ensures db'.subjects[i].id == i + 1 {
          assert db'.subjects[i] == SampleSubjects(db.subjectSeq, db.teachers[0].id, |SubjectNames|)[i - |db.subjects|];
        }
      }
      assert CoursesNumbered(db'.courses, db'.courseSeq) by {
        forall i | |db.courses| <= i < |db'.courses| ensures db'.courses[i].id == i + 1 {
          assert db'.courses[i] == SampleCourses(db.courseSeq, db.subjectSeq, |SubjectNames|)[i - |db.courses|];
        }
      }
      assert ClassesNumbered(db'.classes, db'.classSeq) by {
        forall i | |db.classes| <= i < |db'.classes| ensures db'.classes[i].id == i + 1 {
          assert db'.classes[i] == SampleClasses(db.classSeq, db.courseSeq, db.teachers[0].id, |SubjectNames|)[i - |db.classes|];
        }
      }
    }
  }

  lemma StartKeepsConsistent(db: Db, c: Crypto)
    requires Consistent(db)
    ensures Consistent(Start(db, c))
  {
    SeedAdminKeepsConsistent(db, c);
    AddSampleDataKeepsConsistent(SeedAdmin(db, c));
  }

  /**
   * The first start on a new database file seeds only the administrator: there is no
   * teacher row yet, so no sample data is added until the server is started again.
   */
  lemma FirstStartSeedsOnlyAdmin(c: Crypto)
    ensures Start(Empty, c) == SeedAdmin(Empty, c)
    ensures Start(Empty, c).subjects == [] && Start(Empty, c).courses == [] && Start(Empty, c).classes == []
  {
    SeedAdminOutcome(Empty, c);
    AddSampleDataRows(SeedAdmin(Empty, c));
  }

  /** Unlike the administrator seeding, the sample data is added again at every start. */
  lemma {:induction false} StartRepeats(db: Db, c: Crypto)
    requires |db.teachers| > 0
    ensures |Start(Start(db, c), c).subjects| == |db.subjects| + 2 * |SubjectNames|
    ensures |Start(Start(db, c), c).classes| == |db.classes| + 2 * |SubjectNames|
    ensures Start(Start(db, c), c).users == Start(db, c).users
  {
    var seeded := SeedAdmin(db, c);
    var once := Start(db, c);
    SeedAdminOutcome(db, c);
    AddSampleDataRows(seeded);
    assert EmailTaken(once.users, AdminEmail) by {
      if !EmailTaken(db.users, AdminEmail) {
        assert once.users[|db.users|].email == AdminEmail;
      }
    }
    SeedAdminOutcome(once, c);
    AddSampleDataRows(once);
  }
}
