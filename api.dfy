/**
 * The request handlers of server.js as functions of the database before the request.
 * A handler that writes returns a `Step`: the database after the request and the
 * response sent. Only the status code and a description of the body are kept of the HTTP
 * exchange. Handlers run one at a time.
 */
module Api {
  import opened Wrappers
  import opened Schema
  import opened Statements
  import opened Credentials
  import opened Queries

  /** What a refused statement or a failed property access sends with status 400. */
  datatype Fault =
    | UniqueConstraint       // SQLITE_CONSTRAINT_UNIQUE on users.email
    | PrimaryKeyConstraint   // SQLITE_CONSTRAINT_PRIMARYKEY on enrollments
    | ForeignKeyConstraint   // SQLITE_CONSTRAINT_FOREIGNKEY on enrollments
    | UndefinedStudent       // TypeError reading `student.id` of no row

  datatype Body =
    | Message(text: string)
    | Error(text: string)
    | SqlFault(fault: Fault)
    | Session(token: string, role: Role)
    | Teachers(listings: seq<TeacherListing>)
    | Schedule(entries: seq<ScheduleEntry>)
    | Courses(offers: seq<CourseOffer>)
    | InternalError          // an uncaught throw, answered by Express's default handler

  datatype Response = Response(status: int, body: Body)

  datatype Step = Step(db: Db, response: Response)

  const Unauthenticated: Response := Response(401, Error("Please authenticate"))
  const NotAuthorized: Response := Response(403, Error("Not authorized"))
  const InvalidCredentials: Response := Response(401, Error("Invalid credentials"))
  const Crash: Response := Response(500, InternalError)

  function BadRequest(fault: Fault): Response {
    Response(400, SqlFault(fault))
  }

  // ---------------------------------------------------------------------------
  // Authentication

  /**
   * The `auth` middleware (server.js:84-97): a missing header, a token that does not
   * verify and an id with no user row all end in 401; otherwise the handler runs as the
   * user whose id the token carries.
   */
  function Authenticate(users: seq<UserRow>, c: Crypto, header: Option<string>): (r: Option<UserRow>)
    ensures r.Some? <==>
      && header.Some?
      && c.verify(StripBearer(header.value)).Some?
      && exists u :: u in users && u.id == c.verify(StripBearer(header.value)).value
    ensures r.Some? ==> r.value in users && c.verify(StripBearer(header.value)) == Some(r.value.id)
  {
    match header
    case None => None
    case Some(h) =>
      match c.verify(StripBearer(h))
      case None => None
      case Some(id) => UserById(users, id)
  }

  /** POST /api/auth/login (server.js:100-114). */
  function Login(db: Db, c: Crypto, email: string, password: string): Response {
    match UserByEmail(db.users, email)
    case None => InvalidCredentials
    case Some(u) =>
      if !c.check(password, u.password) then InvalidCredentials
      else Response(200, Session(c.sign(u.id), u.role))
  }

  /** POST /api/auth/register (server.js:116-128): a STUDENT user, then its student row. */
  function Register(db: Db, c: Crypto, name: string, email: string, password: string, grade: string): Step {
    match InsertUser(db, name, email, c.hash(password), Student)
    case None => Step(db, BadRequest(UniqueConstraint))
    case Some(ins) =>
      Step(InsertStudent(ins.db, ins.rowid, grade).db, Response(201, Message("Registration successful")))
  }

  // ---------------------------------------------------------------------------
  // Teacher routes

  /** GET /api/teachers (server.js:131-144). */
  function ListTeachers(db: Db, c: Crypto, header: Option<string>): Response {
    match Authenticate(db.users, c, header)
    case None => Unauthenticated
    case Some(u) =>
      if u.role != Admin then NotAuthorized
      else Response(200, Teachers(TeacherListingRows(db.users, db.teachers)))
  }

  /** POST /api/teachers (server.js:146-162): a TEACHER user, then its teacher row. */
  function AddTeacher(db: Db, c: Crypto, header: Option<string>, name: string, email: string, password: string): Step {
    match Authenticate(db.users, c, header)
    case None => Step(db, Unauthenticated)
    case Some(u) =>
      if u.role != Admin then Step(db, NotAuthorized)
      else match InsertUser(db, name, email, c.hash(password), Teacher)
        case None => Step(db, BadRequest(UniqueConstraint))
        case Some(ins) =>
          Step(InsertTeacher(ins.db, ins.rowid).db, Response(201, Message("Teacher added successfully")))
  }

  // ---------------------------------------------------------------------------
  // Schedule routes

  /** GET /api/teachers/schedule (server.js:165-180); `teacher.id` of no row throws outside any try. */
  function TeacherSchedule(db: Db, c: Crypto, header: Option<string>): Response {
    match Authenticate(db.users, c, header)
    case None => Unauthenticated
    case Some(u) =>
      if u.role != Teacher then NotAuthorized
      else match TeacherByUser(db.teachers, u.id)
        case None => Crash
        case Some(t) => Response(200, Schedule(TeacherScheduleRows(db.classes, db.courses, db.subjects, t.id)))
  }

  /** GET /api/students/schedule (server.js:182-198); `student.id` of no row throws outside any try. */
  function StudentSchedule(db: Db, c: Crypto, header: Option<string>): Response {
    match Authenticate(db.users, c, header)
    case None => Unauthenticated
    case Some(u) =>
      if u.role != Student then NotAuthorized
      else match StudentByUser(db.students, u.id)
        case None => Crash
        case Some(s) =>
          Response(200, Schedule(StudentScheduleRows(db.enrollments, db.courses, db.classes, db.subjects, s.id)))
  }

  // ---------------------------------------------------------------------------
  // Course routes

  /** GET /api/courses/available (server.js:201-215). */
  function AvailableCourses(db: Db, c: Crypto, header: Option<string>): Response {
    match Authenticate(db.users, c, header)
    case None => Unauthenticated
    case Some(u) =>
      if u.role != Student then NotAuthorized
      else Response(200, Courses(AvailableCourseRows(db.courses, db.subjects, db.teachers, db.users)))
  }

  /** POST /api/students/enroll (server.js:217-232); the course id comes from the request body. */
  function Enroll(db: Db, c: Crypto, header: Option<string>, courseId: int): Step {
    match Authenticate(db.users, c, header)
    case None => Step(db, Unauthenticated)
    case Some(u) =>
      if u.role != Student then Step(db, NotAuthorized)
      else match StudentByUser(db.students, u.id)
        case None => Step(db, BadRequest(UndefinedStudent))
        case Some(s) =>
          match InsertEnrollment(db, s.id, courseId)
          case Refused(PrimaryKey) => Step(db, BadRequest(PrimaryKeyConstraint))
          case Refused(ForeignKey) => Step(db, BadRequest(ForeignKeyConstraint))
          case Added(db') => Step(db', Response(200, Message("Enrolled successfully")))
  }

  // ---------------------------------------------------------------------------
  // Start-up

  const AdminEmail: string := "admin@school.com"
  const AdminPassword: string := "admin123"

  /** Admin seeding (server.js:72-79): insert the administrator unless the email is present. */
  function SeedAdmin(db: Db, c: Crypto): Db {
    if UserByEmail(db.users, AdminEmail).Some? then db
    else match InsertUser(db, "Admin", AdminEmail, c.hash(AdminPassword), Admin)
      case None => db
      case Some(ins) => ins.db
  }

  const SubjectNames: seq<string> := ["Mathematics", "Physics", "Chemistry", "Biology", "English"]
  const Times: seq<string> := ["09:00", "10:00", "11:00", "13:00", "14:00"]
  const Rooms: seq<string> := ["101", "102", "103", "104", "105"]

  /** `times[index + 1] || '15:00'` (server.js:261). */
  function EndTime(i: nat): string {
    if i + 1 < |Times| then Times[i + 1] else "15:00"
  }

  /** One iteration of the forEach in addSampleData (server.js:245-264): a subject, its course, its Monday class. */
  function SampleItem(db: Db, teacherId: int, i: nat): Db
    requires i < |SubjectNames|
  {
    var subject := InsertSubject(db, SubjectNames[i], teacherId);
    var course := InsertCourse(subject.db, subject.rowid);
    InsertClass(course.db, course.rowid, teacherId, "Monday", Times[i], EndTime(i), Rooms[i]).db
  }

  /** The first `n` iterations of that forEach. */
  function SampleItems(db: Db, teacherId: int, n: nat): Db
    requires n <= |SubjectNames|
  {
    if n == 0 then db else SampleItem(SampleItems(db, teacherId, n - 1), teacherId, n - 1)
  }

  /** addSampleData (server.js:235-266): nothing without a teacher, else five items for the first teacher row. */
  function AddSampleData(db: Db): Db {
    if |db.teachers| == 0 then db else SampleItems(db, db.teachers[0].id, |SubjectNames|)
  }

  /**
   * A start of the server on an existing database file (server.js:14-79, 268-273): the
   * tables are created only if absent, the administrator is seeded when the module loads,
   * and the sample data is added in the `listen` callback, before any request is served.
   */
  function Start(db: Db, c: Crypto): Db {
    AddSampleData(SeedAdmin(db, c))
  }
}
