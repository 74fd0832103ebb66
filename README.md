# Course enrollment and user CRUD controllers, modelled in Dafny

This project models the two REST controllers of a pair of cooperating microservices:

- the **course service** controller (`CursoController`): course create / list / get / update /
  delete, and the enrollment handlers that assign a user to a course, unassign a user, and
  list a course's enrolled users;
- the **user service** controller (`UsuarioController`): user list / get / create / update /
  delete.

A course owns a *roster*: a sequence of enrollment entries, each referencing a user by id. The
enrollment handler runs three checks in a fixed order — the user exists in the user service,
the course exists, the user is not already on the roster — and only then appends an entry and
saves the course. Every refusal leaves the store as it was. Enrollment adds an entry only for a
user not yet on the roster; enrollment, unenrollment, update and delete keep a duplicate-free
roster duplicate-free; create keeps the rosters duplicate-free exactly when the roster in the
request is.

Layout (one module per file):

- `ids.dfy` — module `Ids`: the user id type both services share.
- `http.dfy` — module `Http`: the status codes used and `Response<B>`, a status plus an abstract payload.
- `roster.dfy` — module `Roster`: the roster as the sequence of its entries' user ids; the
  duplicate scan (`IsEnrolled`), `AddUser` and `RemoveUser` (the entity's `addUsuario` /
  `removeUsuario`), the no-duplicates invariant and the lemmas about them.
- `courses.dfy` — module `Courses`: the course record, each handler as a pure function from
  (store, request) to an `Outcome` (response and new store), the properties proved about them,
  and class `CourseController`, whose field `courses: map<int, Course>` the handler methods update
  in place; each method is proved to produce exactly the handler function's outcome.
- `users.dfy` — module `Users`: the same for user records and `UserController`.
- `enrollment.dfy` — module `Enrollment`: the course service's user lookup answered by the user
  service's GET by id, relating enrollment to the user store.

External collaborators become inputs: bean validation is a boolean `hasErrors`; the user
service's answer to the enrollment lookup is a `UserLookup` value (`Found`, `NotFound` or
`TransportError`); the id the database assigns on create is a `freshId` parameter that must not
already be a key.

## Model

| member | source | states |
|---|---|---|
| Roster.IsEnrolled | micro_cursos/src/main/java/com/espe/micro_cursos/controller/CursoController.java:155-156 | the duplicate scan is true exactly when some roster entry references the user |
| Roster.RemoveUser | micro_cursos/src/main/java/com/espe/micro_cursos/controller/CursoController.java:185 | after removal no entry references the user, every other user keeps its number of entries, and exactly the user's entries are dropped |
| Roster.AddUser | micro_cursos/src/main/java/com/espe/micro_cursos/controller/CursoController.java:162 | appends exactly one entry, for the user, at the end, keeping the earlier entries as they were |
| Roster.CountAddUser | micro_cursos/src/main/java/com/espe/micro_cursos/controller/CursoController.java:162 | appending an entry adds one entry for that user and changes no other user's count |
| Roster.NoDuplicatesIffCountsAtMostOne | micro_cursos/src/main/java/com/espe/micro_cursos/controller/CursoController.java:154-162 | a roster has no repeated user id exactly when every user has at most one entry |
| Roster.EnrolledOnceInNoDuplicates | micro_cursos/src/main/java/com/espe/micro_cursos/controller/CursoController.java:155-159 | on a duplicate-free roster an enrolled user has exactly one entry |
| Roster.AddUserKeepsNoDuplicates | micro_cursos/src/main/java/com/espe/micro_cursos/controller/CursoController.java:155-162 | appending a user who passed the duplicate scan keeps the roster duplicate-free and gives that user exactly one entry |
| Roster.RemoveUserKeepsNoDuplicates | micro_cursos/src/main/java/com/espe/micro_cursos/controller/CursoController.java:185 | removal keeps a duplicate-free roster duplicate-free |
| Roster.RemoveAbsentUser | micro_cursos/src/main/java/com/espe/micro_cursos/controller/CursoController.java:185 | removing a user with no entry leaves the roster as it was (a silent no-op, not an error) |
| Roster.RemoveUserIdempotent | micro_cursos/src/main/java/com/espe/micro_cursos/controller/CursoController.java:185 | removing a user twice is the same as removing once |
| Roster.RemoveUserConcat | micro_cursos/src/main/java/com/espe/micro_cursos/controller/CursoController.java:185 | removal works entry by entry: removing from a concatenation is removing from each part, so the entries that stay keep their order |
| Roster.RemoveUndoesAdd | micro_cursos/src/main/java/com/espe/micro_cursos/controller/CursoController.java:162-185 | appending an absent user and then removing that user restores the roster |
| Courses.ListAllResponse | micro_cursos/src/main/java/com/espe/micro_cursos/controller/CursoController.java:62-64 | listing always answers 200 with exactly the stored courses; when courses are keyed by id, a course is listed exactly when it is stored under its id |
| Courses.GetByIdResponse | micro_cursos/src/main/java/com/espe/micro_cursos/controller/CursoController.java:77-83 | 200 exactly when the id is stored, with the stored course; otherwise 404 "Curso no encontrado" |
| Courses.ListUsersByCourseResponse | micro_cursos/src/main/java/com/espe/micro_cursos/controller/CursoController.java:201-207 | 200 exactly when the course is stored, with its roster's user ids; otherwise 404 |
| Courses.CreateOutcome | micro_cursos/src/main/java/com/espe/micro_cursos/controller/CursoController.java:44-52 | validation errors give 400 and no write; otherwise the course is stored under the new id, no other course changes, and 201 returns the stored course |
| Courses.UpdateOutcome | micro_cursos/src/main/java/com/espe/micro_cursos/controller/CursoController.java:97-112 | 400 with no write on validation errors (checked first), 404 with no write on a missing id; otherwise only nombre, descripcion and creditos change, id and roster are kept, other courses untouched, 201 |
| Courses.DeleteOutcome | micro_cursos/src/main/java/com/espe/micro_cursos/controller/CursoController.java:123-130 | 404 and no change on a missing id; otherwise 200 and exactly that key is removed, other courses untouched |
| Courses.AssignUserOutcome | micro_cursos/src/main/java/com/espe/micro_cursos/controller/CursoController.java:143-170 | transport failure gives 500, unknown user 404 (even when the course is missing), missing course 404, enrolled user 409, each with the store unchanged; 201 exactly when all three checks pass, and then only that course's roster changes, gaining one entry at the end |
| Courses.UnassignUserOutcome | micro_cursos/src/main/java/com/espe/micro_cursos/controller/CursoController.java:181-190 | a missing course gives 404 "Matrícula no encontrada" with no write; otherwise 200, the user has no entry afterwards, and only that course's roster changes |
| Courses.ListAllMatchesGetById | micro_cursos/src/main/java/com/espe/micro_cursos/controller/CursoController.java:62-83 | a course is in the full listing exactly when GET by its id answers 200 with it |
| Courses.AssignUserEnrollsOnce | micro_cursos/src/main/java/com/espe/micro_cursos/controller/CursoController.java:155-164 | on success the user had no entry before and has exactly one after, other users' entries are unchanged, and a duplicate-free roster stays duplicate-free |
| Courses.AssignUserTwiceConflicts | micro_cursos/src/main/java/com/espe/micro_cursos/controller/CursoController.java:155-159 | repeating a successful enrollment is refused with 409 and changes nothing |
| Courses.UnassignUserTwiceIsNoOp | micro_cursos/src/main/java/com/espe/micro_cursos/controller/CursoController.java:181-190 | repeating an unenrollment answers 200 again and leaves the store as the first call left it |
| Courses.UnassignUndoesAssign | micro_cursos/src/main/java/com/espe/micro_cursos/controller/CursoController.java:143-190 | a successful enrollment followed by unenrolling the same user restores the whole store |
| Courses.DeleteRemovesCourseAndRoster | micro_cursos/src/main/java/com/espe/micro_cursos/controller/CursoController.java:123-130 | after deletion GET by id and the roster listing answer 404, and a second delete answers 404 |
| Courses.CreateThenGetById | micro_cursos/src/main/java/com/espe/micro_cursos/controller/CursoController.java:44-83 | the course a create returns is what GET by its new id returns |
| Courses.UpdateIdempotent | micro_cursos/src/main/java/com/espe/micro_cursos/controller/CursoController.java:97-112 | applying the same update twice leaves the same store as applying it once |
| Courses.HandlersKeepKeyedById | micro_cursos/src/main/java/com/espe/micro_cursos/controller/CursoController.java:44-190 | every handler keeps each course stored under its own id |
| Courses.HandlersKeepRostersUnique | micro_cursos/src/main/java/com/espe/micro_cursos/controller/CursoController.java:44-190 | enrollment, unenrollment, update and delete keep all rosters duplicate-free; create does so exactly when the roster it is given is duplicate-free |
| Courses.CourseController.ListAll | micro_cursos/src/main/java/com/espe/micro_cursos/controller/CursoController.java:62-64 | answers exactly as ListAllResponse on the current store |
| Courses.CourseController.GetById | micro_cursos/src/main/java/com/espe/micro_cursos/controller/CursoController.java:77-83 | answers exactly as GetByIdResponse on the current store |
| Courses.CourseController.ListUsersByCourse | micro_cursos/src/main/java/com/espe/micro_cursos/controller/CursoController.java:201-207 | answers exactly as ListUsersByCourseResponse on the current store |
| Courses.CourseController.Create | micro_cursos/src/main/java/com/espe/micro_cursos/controller/CursoController.java:44-52 | response and new store are those of CreateOutcome; keeps courses keyed by id |
| Courses.CourseController.Update | micro_cursos/src/main/java/com/espe/micro_cursos/controller/CursoController.java:97-112 | response and new store are those of UpdateOutcome; keeps courses keyed by id |
| Courses.CourseController.Delete | micro_cursos/src/main/java/com/espe/micro_cursos/controller/CursoController.java:123-130 | response and new store are those of DeleteOutcome; keeps courses keyed by id |
| Courses.CourseController.AssignUser | micro_cursos/src/main/java/com/espe/micro_cursos/controller/CursoController.java:143-170 | response and new store are those of AssignUserOutcome; keeps courses keyed by id |
| Courses.CourseController.UnassignUser | micro_cursos/src/main/java/com/espe/micro_cursos/controller/CursoController.java:181-190 | response and new store are those of UnassignUserOutcome; keeps courses keyed by id |
| Users.FindAllResponse | micro_usuarios/src/main/java/com/espe/micro_usuarios/controller/UsuarioController.java:39-41 | listing always answers 200 with exactly the stored users; when users are keyed by id, a user is listed exactly when it is stored under its id |
| Users.FindByIdResponse | micro_usuarios/src/main/java/com/espe/micro_usuarios/controller/UsuarioController.java:54-56 | 200 exactly when the id is stored, with the stored user; otherwise 404 with no body |
| Users.CreateOutcome | micro_usuarios/src/main/java/com/espe/micro_usuarios/controller/UsuarioController.java:69-77 | validation errors give 400 and no write; otherwise the user is stored under the new id, no other user changes, and 201 returns it |
| Users.UpdateOutcome | micro_usuarios/src/main/java/com/espe/micro_usuarios/controller/UsuarioController.java:91-109 | 400 with no write on validation errors (checked first), 404 with no write on a missing id; otherwise exactly nombre, apellido, email, telefono and fechaNacimiento are overwritten, the id is kept, other users untouched, 201 |
| Users.DeleteOutcome | micro_usuarios/src/main/java/com/espe/micro_usuarios/controller/UsuarioController.java:120-127 | 404 and no change on a missing id; otherwise 200 and exactly that key is removed, other users untouched |
| Users.FindAllMatchesFindById | micro_usuarios/src/main/java/com/espe/micro_usuarios/controller/UsuarioController.java:39-56 | a user is in the full listing exactly when GET by its id answers 200 with it |
| Users.CreateThenFindById | micro_usuarios/src/main/java/com/espe/micro_usuarios/controller/UsuarioController.java:54-77 | the user a create returns is what GET by its new id returns |
| Users.UpdateIdempotent | micro_usuarios/src/main/java/com/espe/micro_usuarios/controller/UsuarioController.java:91-109 | applying the same update twice leaves the same store as applying it once |
| Users.DeleteThenGone | micro_usuarios/src/main/java/com/espe/micro_usuarios/controller/UsuarioController.java:120-127 | after deletion GET by id answers 404, and a second delete answers 404 without a change |
| Users.HandlersKeepKeyedById | micro_usuarios/src/main/java/com/espe/micro_usuarios/controller/UsuarioController.java:69-127 | every handler keeps each user stored under its own id |
| Users.UserController.FindAll | micro_usuarios/src/main/java/com/espe/micro_usuarios/controller/UsuarioController.java:39-41 | answers exactly as FindAllResponse on the current store |
| Users.UserController.FindById | micro_usuarios/src/main/java/com/espe/micro_usuarios/controller/UsuarioController.java:54-56 | answers exactly as FindByIdResponse on the current store |
| Users.UserController.Create | micro_usuarios/src/main/java/com/espe/micro_usuarios/controller/UsuarioController.java:69-77 | response and new store are those of CreateOutcome; keeps users keyed by id |
| Users.UserController.Update | micro_usuarios/src/main/java/com/espe/micro_usuarios/controller/UsuarioController.java:91-109 | response and new store are those of UpdateOutcome; keeps users keyed by id |
| Users.UserController.Delete | micro_usuarios/src/main/java/com/espe/micro_usuarios/controller/UsuarioController.java:120-127 | response and new store are those of DeleteOutcome; keeps users keyed by id |
| Enrollment.LookupIn | micro_usuarios/src/main/java/com/espe/micro_usuarios/controller/UsuarioController.java:54-56 | the lookup answered by the user service finds a user exactly when the user store holds that id; a missing user is an empty lookup or a failed call, as the client's reading of a 404 says |
| Enrollment.EnrollOnlyRegisteredUsers | micro_cursos/src/main/java/com/espe/micro_cursos/controller/CursoController.java:145-148 | enrollment succeeds only for a user the user service holds; an unknown user is refused with no write whatever the course store holds: 404 when the client reports an empty lookup, 500 when it raises |
| Enrollment.DeletedUserCannotEnroll | micro_cursos/src/main/java/com/espe/micro_cursos/controller/CursoController.java:145-148 | after the user service deletes a user, enrolling that user is refused with no write: 404 "Usuario no encontrado" for an empty lookup, 500 with the communication-error message when the client raises |
| Enrollment.EnrollmentWalkThrough | micro_cursos/src/main/java/com/espe/micro_cursos/controller/CursoController.java:143-190 | create course 1, enroll user 7: 201 with roster [7]; again: 409, no change; unenroll: 200, roster []; again: 200, no change |

## Left out

- HTTP routing, `ResponseEntity` construction, the OpenAPI annotations and JSON (de)serialisation: a response is a status code and an abstract payload (`Body`).
- Bean validation (`@Valid`, `BindingResult`) and the map of field errors it produces: the constraints live in entity classes that are not part of this model, so validation is the input `hasErrors` and its answer the payload `ValidationErrors`.
- The `Curso` entity is not part of this model: `addUsuario` is modelled as appending an entry for the user id, and `removeUsuario` as removing every entry carrying that id. Removing all entries is a modelling choice (the handler's description speaks of removing the user's enrollment); on a duplicate-free roster, which every handler but create keeps, it removes exactly one entry when the user is enrolled (`Roster.EnrolledOnceInNoDuplicates`). `getUsuarios` is taken to be the roster's user ids.
- The Feign client of the user service and the course service's `findUsuarioById` are not part of this model: in `Courses` their answer is the input `UserLookup`. A failed call is answered with 500, as the handler does.
- Enrollment.LookupIn cannot say how the course service turns the user service's 404 into a lookup result (that conversion is not part of this model; by default Feign would raise FeignException and the handler would answer 500), so it takes the reading as the parameter `MissingUser`: `EmptyLookup` (the handler's 404 "Usuario no encontrado") or `Raises` (500). The lemmas about unknown users state both outcomes.
- `createUsuario` (the course service's pass-through that creates a user through the user service, CursoController.java lines 218-225) is left out: it forwards the request over the network and has no local logic.
- The persistence layer is a map. The database's choice of a new id on create is the parameter `freshId`; what `save` does with an id already present in a create request (an overwrite by merge) is not modelled.
- A create request's course is stored with the roster it carries; whether the entity accepts roster entries in the request body is decided by the entity, which is not part of this model.
- `listAll` and `findAll` return the stored records as a set: the order the database lists them in is not modelled.
- The enrollment request's own validation (`@Valid` on the user body without a `BindingResult`, CursoController.java line 143): a failure there is answered by the framework before the handler runs and is not modelled.
- A null user id in an enrollment request, and exceptions other than the Feign one, are not modelled.
- Concurrency: the unguarded window between the duplicate scan and `save` only matters for concurrent requests; the model is sequential, one handler call at a time.
- A user's birth date is a (year, month, day) triple with no calendar validity check.
