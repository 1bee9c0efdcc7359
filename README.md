# School schedule server — a verified model of its request handling

The server (`server.js`) keeps a school's users, student and teacher profiles, subjects,
courses, weekly classes and enrollments in seven SQLite tables, and serves a JSON API:

- login and student registration;
- an ADMIN listing and adding teachers;
- a TEACHER or a STUDENT reading their schedule;
- a STUDENT browsing the course list and enrolling.

Every route except login and registration goes through an authentication middleware. It
reads a `Bearer <token>` header, verifies the signed token and loads the user the token
names. The route then checks that user's role. At each start the server creates the
tables if they are absent and seeds an administrator account. Once it is listening, it adds
sample subjects, courses and classes for the first teacher row, if there is one.

This project models that request handling. It has these layers:

- `schema.dfy` (module `Schema`): the rows and the database value `Db`. It also holds the
  invariant `Consistent` the handlers keep. Ids are numbered 1, 2, 3, … with one
  AUTOINCREMENT counter per table. E-mails are unique. Enrollment pairs are unique. Every
  STUDENT/TEACHER user has exactly one profile row, and every profile row belongs to a user
  of that role. Every enrollment names an existing student row and an existing course row.
- `statements.dfy` (module `Statements`): one function per INSERT statement. The UNIQUE
  email refuses a users insert. The primary key and the two foreign keys refuse an
  enrollments insert. The declared foreign keys are enforced, because better-sqlite3 builds
  SQLite with them switched on. Every other insert names a parent row that exists, so
  only the enrollment can break one.
- `credentials.dfy` (module `Credentials`): bcrypt and JWT as a record of functions.
  `Sound` states the two facts the server relies on: a password checks against its own
  hash, and a token verifies back to the id it was signed with. It also models
  `replace('Bearer ', '')` as JavaScript defines it: the first occurrence is removed,
  wherever it stands.
- `queries.dfy` (module `Queries`): the four SELECT joins, each as a nested-loop evaluation.
  Each one states exactly which rows are in its answer.
- `api.dfy` (module `Api`): every route, the admin seeding, the sample data and a start of
  the server (`Api.Start`). Each is a function from the database before the request to
  the database after it and the response sent (status code and body). The handler
  functions carry no contracts of their own. The lemmas of `Properties` specify them:
  - `Api.Login`: `LoginOutcome`, `LoginThenAuthenticate`;
  - `Api.Register`: `RegisterOutcome`, `RegisterKeepsConsistent`, `RegisterThenLogin`;
  - `Api.ListTeachers`, `Api.AvailableCourses`: `ListingsAnswer`;
  - `Api.AddTeacher`: `AddTeacherOutcome`, `AddTeacherKeepsConsistent`;
  - `Api.TeacherSchedule`: `TeacherScheduleExact`;
  - `Api.StudentSchedule`: `StudentScheduleExact`;
  - `Api.Enroll`: `EnrollOutcome`, `EnrollEffect`, `EnrollKeepsConsistent`, `EnrollTwice`;
  - `Api.SeedAdmin`: `SeedAdminOutcome`, `SeedAdminIdempotent`, `SeedAdminThenLogin`;
  - `Api.AddSampleData`, `Api.SampleItems`: `AddSampleDataRows`, `SampleItemsRows`;
  - `Api.Start`: `StartKeepsConsistent`, `FirstStartSeedsOnlyAdmin`, `StartRepeats`;
  - all guarded routes: `UnauthenticatedChangesNothing`, `WrongRoleChangesNothing`.

  The `Statements.Insert*` functions are specified by the `Server.Store.Insert*` methods
  and by the lemmas above. `Credentials.StripBearer` is specified by the three
  `Credentials.StripBearer*` lemmas.
- `properties.dfy` (module `Properties`): what the routes promise, as lemmas:
  - each writing route's exact effect, and that it keeps `Consistent`;
  - the order of the 401/403 guards, and that a refused request changes nothing;
  - login round trips: register then login, login then authenticate;
  - exact schedules;
  - duplicate enrollment, and enrollment in a course that does not exist;
  - idempotent admin seeding;
  - the first start adding no sample data, and every later start adding it again.
- `server.dfy` (module `Server`): the shared database handle as a class `Store`. Its
  fields are the seven tables and six counters. Each INSERT and each writing route is a
  method that updates the fields step by step, as the JavaScript does. Each method is
  proved to reach the state the matching function describes, and to keep the invariant.
- `scenario.dfy` (module `Scenario`): a new database file over two starts of the server.
  - In the first run the administrator is seeded, logs in and adds a teacher. No sample
    data is added, since there was no teacher row when the server started.
  - The server is then restarted, which adds the sample data for that teacher.
  - In the second run a student registers and logs in, and sees Mathematics. Enrolling in
    course 99, which does not exist, is refused. The student then enrolls in Mathematics
    and finds its Monday class in the schedule.

Some behaviours of the code are easy to mistake; the model follows the code:

- Enrolling in a course id that names no course row is refused with 400. The handler does
  not check the course itself; the foreign key on `enrollments.courseId` does
  (`Properties.EnrollOutcome`).
- The sample data is added only in the `listen` callback, before any request is served.
  A teacher added while the server runs gets sample data only at the next start
  (`Properties.FirstStartSeedsOnlyAdmin`).
- The teacher schedule selects classes by `classes.teacherId`, not by the teacher of the
  class's subject (`Api.TeacherSchedule`, `Properties.TeacherScheduleExact`).
- Registration and teacher creation run two INSERTs outside a transaction. In the model
  the second INSERT cannot fail, so the two always happen together. In the server a grade
  the driver cannot bind makes the second INSERT throw after the first has committed (see
  "## Left out").
- `GET /api/teachers` returns `users.*`, so each listing includes the user's password hash
  (`Queries.TeacherListing` keeps the whole `UserRow`).
- A TEACHER or STUDENT user without a profile row makes the schedule routes throw outside
  any `try`, giving a 500 answer (`Api.Crash`). The same case gives 400 on enrollment,
  whose `try` catches it. `Consistent` rules both out
  (`Properties.TeacherScheduleExact`, `Properties.StudentScheduleExact`,
  `Properties.EnrollFindsStudent`).

## Model

| member | source | states |
|---|---|---|
| Schema.EmptyConsistent | server.js:15-69 | The freshly created, empty tables satisfy the invariant. |
| Schema.UserById | server.js:88 | The lookup by id returns a row of the table carrying that id, and returns nothing exactly when no row has that id. |
| Schema.UserByEmail | server.js:103 | The lookup by email returns a row of the table with that email, and returns nothing exactly when no row has it. |
| Schema.TeacherByUser | server.js:170 | The teacher-row lookup returns a row owned by the user, and returns nothing exactly when the user has no teacher row. |
| Schema.StudentByUser | server.js:224 | The student-row lookup returns a row owned by the user, and returns nothing exactly when the user has no student row. |
| Schema.UserByIdNumbered | server.js:17 | With AUTOINCREMENT ids, the user with id `id` is the row at position `id - 1`, and no row has an id outside 1..count. |
| Schema.UserByEmailUnique | server.js:19 | Because email is UNIQUE, looking up a user's email finds that very user. |
| Schema.TeacherProfileUnique | server.js:170 | In a consistent database, a TEACHER user has a teacher row, and every teacher row of that user is the one the lookup finds. |
| Schema.StudentProfileUnique | server.js:187 | In a consistent database, a STUDENT user has a student row, and every student row of that user is the one the lookup finds. |
| Schema.AppendUserKeepsEmailsUnique | server.js:19 | Appending a user whose email no row has keeps emails unique. |
| Schema.AppendStudentKeepsLinked | server.js:121-122 | Appending a STUDENT user with the next id and a student row pointing at it keeps every profile linked to exactly one user of its role. |
| Schema.AppendTeacherKeepsLinked | server.js:155-156 | Appending a TEACHER user with the next id and a teacher row pointing at it keeps every profile linked to exactly one user of its role. |
| Schema.AppendAdminKeepsLinked | server.js:78 | Appending the ADMIN user, who has no profile row, keeps the profiles linked. |
| Schema.AppendEnrollmentKeepsConsistent | server.js:62-68 | Appending a pair that is not yet present, for an existing student row and an existing course row, keeps the primary key unique and the whole invariant. |
| Credentials.StripBearerOfHeader | server.js:86 | The header `Bearer <token>` yields exactly `<token>`. |
| Credentials.StripBearerAbsent | server.js:86 | A header without `Bearer ` anywhere is used as the token unchanged. |
| Credentials.StripBearerFirst | server.js:86 | Otherwise only the first occurrence of `Bearer ` is cut out, wherever it stands, and the rest is kept. |
| Queries.TeacherListingRows | server.js:136-141 | A listing is in the answer exactly when its user is a TEACHER row of the users table and a teacher row with the listed id belongs to that user. |
| Queries.TeacherScheduleRows | server.js:171-177 | An entry is in the answer exactly when its class has the given teacherId, and the class's course row and that course's subject row, with the entry's subject name, exist. |
| Queries.StudentScheduleRows | server.js:188-195 | An entry is in the answer exactly when its class's course is enrolled in by the given student row, and the course and subject rows exist with the entry's subject name. |
| Queries.AvailableCourseRows | server.js:206-212 | An offer is in the answer exactly when its course exists, and its subject and the subject's teacher row exist, with the teacher's user having the listed name. |
| Api.Authenticate | server.js:84-97 | A caller is authenticated exactly when a header is present, its token verifies, and a user with the token's id exists. That user is the one returned. |
| Properties.LoginOutcome | server.js:100-114 | Unknown email or wrong password gives 401 "Invalid credentials". A found user whose stored hash checks gets 200 with a token signed for that user's id and that user's role. A 200 answer always belongs to a user with that email whose hash checks, and its token verifies back to that user's id. |
| Properties.LoginThenAuthenticate | server.js:109 | The token a successful login issues, sent back as `Bearer <token>`, authenticates as the user who logged in. |
| Properties.RegisterOutcome | server.js:116-128 | A taken email gives 400 and changes nothing. Otherwise exactly one STUDENT user with the hashed password and the next id is added, plus one student row pointing at it, with 201. |
| Properties.RegisterKeepsConsistent | server.js:116-128 | Registration keeps the invariant. |
| Properties.RegisterThenLogin | server.js:116-128 | After a successful registration, logging in with the same email and password gives 200 with a token for the new user's id and the role STUDENT. |
| Properties.UnauthenticatedChangesNothing | server.js:94-96 | Without a valid token, every guarded route answers 401 "Please authenticate" and changes nothing. |
| Properties.WrongRoleChangesNothing | server.js:132-134 | An authenticated caller without the route's role (ADMIN for both teacher routes, TEACHER for the teacher schedule, STUDENT for the others) gets 403 "Not authorized", and nothing changes. |
| Properties.AddTeacherOutcome | server.js:146-162 | For an ADMIN caller, a taken email gives 400 and changes nothing. Otherwise exactly one TEACHER user with the next id is added, plus one teacher row pointing at it, with 201. |
| Properties.AddTeacherKeepsConsistent | server.js:146-162 | Adding a teacher keeps the invariant, whoever calls. |
| Properties.EnrollOutcome | server.js:217-232 | For a STUDENT caller with a student row, a pair already present gives 400 (primary key) and changes nothing. A course id naming no course row gives 400 (foreign key) and changes nothing. Any other pair is appended, with 200. |
| Properties.EnrollKeepsPairsUnique | server.js:65 | For any integer course id, an enrollment request never leaves the same (studentId, courseId) pair twice in the table. |
| Properties.EnrollEffect | server.js:226 | An enrollment either changes nothing or appends one new pair for an existing student row and an existing course row. |
| Properties.EnrollKeepsConsistent | server.js:217-232 | Enrolling keeps the invariant. |
| Properties.EnrollTwice | server.js:226 | After a successful enrollment, repeating the same request gives 400 (primary key) and changes nothing. |
| Properties.TeacherScheduleExact | server.js:165-180 | For a TEACHER caller in a consistent database, the answer is 200. Its entries are exactly the classes carrying the caller's teacher-row id whose course and subject rows exist. |
| Properties.StudentScheduleExact | server.js:182-198 | For a STUDENT caller in a consistent database, the answer is 200. Its entries are exactly the classes of the courses the caller's student row is enrolled in, whose course and subject rows exist. |
| Properties.EnrollFindsStudent | server.js:224-226 | In a consistent database, a STUDENT caller's enrollment never fails for want of a student row. |
| Properties.ListingsAnswer | server.js:131-144 | An ADMIN caller gets 200 with the full teacher listing. A STUDENT caller gets 200 with the full course list. |
| Properties.SeedAdminOutcome | server.js:72-79 | The administrator (admin@school.com, hashed admin123, role ADMIN, next id) is added only when no user has that email. No other table changes. |
| Properties.SeedAdminIdempotent | server.js:74-76 | Seeding twice leaves the same database as seeding once. |
| Properties.SeedAdminKeepsConsistent | server.js:72-79 | Seeding keeps the invariant. |
| Properties.SeedAdminThenLogin | server.js:72-79 | After seeding a database without the administrator, admin@school.com / admin123 logs in as ADMIN. |
| Properties.SampleItemsRows | server.js:245-264 | After `n` iterations, exactly `n` subjects, `n` courses (the k-th for the k-th new subject) and `n` Monday classes have been appended. Their times and rooms come from the fixed lists, with end time `times[k+1]` or 15:00. Nothing else changes. |
| Properties.AddSampleDataRows | server.js:235-266 | With a teacher row present, the five subjects, courses and classes are appended for the first teacher row. Without one, nothing changes. |
| Properties.AddSampleDataKeepsConsistent | server.js:235-266 | Adding the sample data keeps the invariant. |
| Properties.StartKeepsConsistent | server.js:235-273 | A start of the server keeps the invariant: the administrator seeding of server.js:72-79, then `addSampleData` from the `listen` callback. |
| Properties.FirstStartSeedsOnlyAdmin | server.js:270-273 | The first start on a new database file only seeds the administrator; no subjects, courses or classes are added. |
| Properties.StartRepeats | server.js:270-273 | Each start after a teacher row exists adds the sample data again: two starts add ten subjects and ten classes. The second start adds no user. |
| Server.Store.constructor | server.js:15-69 | A new database has seven empty tables and zeroed counters, and satisfies the invariant. |
| Server.Store.InsertUser | server.js:121 | The users INSERT is refused on a taken email, changing nothing. Otherwise it appends the row with the next id and reports that id. |
| Server.Store.InsertStudent | server.js:122 | The students INSERT appends a row with the next id and reports it. |
| Server.Store.InsertTeacher | server.js:156 | The teachers INSERT appends a row with the next id and reports it. |
| Server.Store.InsertSubject | server.js:247 | The subjects INSERT appends a row with the next id and reports it. |
| Server.Store.InsertCourse | server.js:250 | The courses INSERT appends a row with the next id and reports it. |
| Server.Store.InsertClass | server.js:253-263 | The classes INSERT appends a row with the next id and reports it. |
| Server.Store.InsertEnrollment | server.js:226 | The enrollments INSERT is refused on a pair already present (primary key), or on a student or course id with no row (foreign key), changing nothing and reporting which. Otherwise it appends the pair. |
| Server.Store.SeedAdmin | server.js:72-79 | Seeding in place reaches the state `Api.SeedAdmin` describes and keeps the invariant. |
| Server.Store.Register | server.js:116-128 | Registration in place reaches the state and answer `Api.Register` describes and keeps the invariant. |
| Server.Store.AddTeacher | server.js:146-162 | Adding a teacher in place reaches the state and answer `Api.AddTeacher` describes and keeps the invariant. |
| Server.Store.Enroll | server.js:217-232 | Enrolling in place reaches the state and answer `Api.Enroll` describes and keeps the invariant. |
| Server.Store.Start | server.js:268-273 | A start in place, seeding then the sample data, reaches the state `Api.Start` describes and keeps the invariant. |
| Server.Store.AddSampleData | server.js:235-266 | Adding the sample data in place reaches the state `Api.AddSampleData` describes and keeps the invariant. |
| Server.Store.AddSampleItems | server.js:245-264 | The forEach, one subject, course and class INSERT per iteration, reaches the state of five iterations. |
| Scenario.StaffStage | server.js:146-162 | In the first run on a new database file, the seeded administrator logs in and adds a teacher, who gets user id 2 and teacher row 1. |
| Scenario.RestartStage | server.js:268-273 | Restarting the server leaves the users alone and adds the sample data for teacher row 1: Mathematics, its course 1 and the Monday 09:00-10:00 class in room 101, among courses numbered at most 5. |
| Scenario.StudentStage | server.js:201-215 | A student then registers and logs in, and the course list offers Mathematics taught by the teacher. |
| Scenario.EnrollStage | server.js:217-232 | Enrolling in course 99, which has no row, gives 400 (foreign key) and changes nothing. Enrolling in course 1 gives 200, and the schedule then holds the Monday Mathematics class. |
| Scenario.RestartedScenario | server.js:268-273 | The first run adds no sample data; after the restart, Mathematics is there and the users and teacher rows are unchanged. |
| Scenario.RegisteredScenario | server.js:116-128 | In the second run, a student registers, can log in, and sees Mathematics offered. |
| Scenario.EnrollmentScenario | server.js:217-232 | Over both runs from a new database file: no sample data in the first, a refused enrollment in course 99, then a successful one in course 1 and a schedule holding the Monday Mathematics class. |

## Left out

- Password hashing and token signing (bcryptjs, jsonwebtoken): these are library calls.
  They are parameters (`Credentials.Crypto`), and only the two facts in `Sound` are
  assumed of them. Salt randomness, the token's `iat` field and token expiry are not
  modelled.
- HTTP and Express: routing, JSON body parsing, CORS, static files, the port and `listen`
  are not modelled. A request is the handler's arguments, and a response is a status and a
  body description.
- Requests run one at a time. better-sqlite3 is synchronous, so no interleaving is
  modelled.
- The SQLite engine: the model keeps the tables as sequences in insertion order, and the
  counters as the `sqlite_sequence` values.
- Queries.TeacherListingRows, Queries.TeacherScheduleRows, Queries.StudentScheduleRows, Queries.AvailableCourseRows:
  only the set of rows returned is stated, not their order or multiplicity, because SQLite
  gives no order without ORDER BY.
- Missing or ill-typed body fields: a field left out of the JSON body, or sent as `null`,
  is bound as NULL. A value the driver cannot bind, such as a boolean, makes the statement
  throw, and a missing password makes bcrypt throw. The model takes every body field as a
  string, and `courseId` as an integer. So the `catch` answers of login and registration
  for such bodies are not modelled, and neither are these effects:
  - `{"email": null}` registers any number of users, because UNIQUE lets NULLs through
    (server.js:19). The same holds for `POST /api/teachers`.
  - A grade the driver cannot bind commits the users row at server.js:121 and then throws
    at server.js:122. The answer is 400, and a STUDENT user with no student row is left
    behind, which the invariant `Consistent` rules out.
- Properties.EnrollKeepsPairsUnique: holds only for integer course ids. A missing or `null`
  `courseId` is bound as NULL. SQLite treats NULLs in a composite primary key of a rowid
  table as distinct (server.js:65), and a NULL child key passes the foreign key
  (server.js:67). So repeating that request answers 200 each time and adds
  `(studentId, NULL)` again.
- `SELECT * FROM teachers LIMIT 1` has no ORDER BY. The model takes the first row in
  insertion order (`Api.AddSampleData`).
- Statements.InsertStudent, Statements.InsertTeacher, Statements.InsertSubject, Statements.InsertCourse, Statements.InsertClass:
  their foreign-key checks are not written out. Each names a parent row that exists at
  that point: the user or subject row inserted just before, the course row inserted just
  before, or the teacher row just read. So the check never refuses them.
- The invariant assumes a database file created by this server. Rows are never deleted,
  and a statement refused by a constraint does not advance a counter, so ids equal
  positions. A pre-existing `school.db` with other contents is not modelled.
- The front-end files (`public/`, `src/`) are clients of the API and are not part of this
  model. They are the source of the `Bearer <token>` header form used in the scenario.
