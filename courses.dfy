/** The course service's controller: course CRUD over a store keyed by course id, and the
    enrollment handlers that check a user with the user service, scan the course's roster
    for a duplicate, and append or remove roster entries.

    Every handler has two forms here: a pure function from the store and the request to an
    Outcome (the response and the store afterwards), on which the properties are proved, and
    a method of CourseController that performs the handler's steps on the controller's store
    and is proved to produce exactly that Outcome. */
module Courses {
  import opened Http
  import opened Roster
  import opened Ids

  type CourseId = int

  /** A course record with its roster (the user ids of its enrollment entries). */
  datatype Course = Course(id: CourseId, nombre: string, descripcion: string, creditos: int, entries: Entries)

  /** The persisted courses, keyed by id. */
  type Store = map<CourseId, Course>

  /** The answer of the user service's lookup of a user id: the user exists, it does not,
      or the call itself failed. */
  datatype UserLookup = Found | NotFound | TransportError

  /** Payloads of the course service's responses. */
  datatype Body =
    | CourseBody(course: Course)
    | CourseList(courses: set<Course>)
    | UserIds(ids: Entries)
    | Message(text: string)
    | ValidationErrors

  /** A handler's response together with the store it leaves behind. */
  datatype Outcome = Outcome(response: Response<Body>, store: Store)

  const COURSE_NOT_FOUND: string := "Curso no encontrado"
  const COURSE_DELETED: string := "Curso eliminado correctamente"
  const USER_NOT_FOUND: string := "Usuario no encontrado"
  const ALREADY_ENROLLED: string := "El usuario ya está matriculado en este curso"
  const USER_SERVICE_ERROR: string := "Error en la comunicación con el servicio de usuarios"
  const ENROLLMENT_REMOVED: string := "Matrícula eliminada correctamente"
  const ENROLLMENT_NOT_FOUND: string := "Matrícula no encontrada"

  /** Every course is stored under its own id. */
  predicate KeyedById(store: Store)
  {
    forall k :: k in store ==> store[k].id == k
  }

  /** No roster in the store references a user twice. */
  predicate RostersUnique(store: Store)
  {
    forall k :: k in store ==> NoDuplicates(store[k].entries)
  }

  /** Everything but course `id` is as it was, and `id` is still there. */
  predicate OthersUnchanged(before: Store, after: Store, id: CourseId)
  {
    && after.Keys == before.Keys
    && forall k :: k in before && k != id ==> after[k] == before[k]
  }

  // ---------------------------------------------------------------------------------------
  // Handlers as functions of the store

  /** GET /api/cursos: every stored course, answered with 200. */
  function ListAllResponse(store: Store): (r: Response<Body>)
    ensures r.status == OK && r.body.CourseList?
    ensures forall k :: k in store ==> store[k] in r.body.courses
    ensures forall c :: c in r.body.courses ==> c in store.Values
    ensures r.body.courses == store.Values
    ensures KeyedById(store) ==> forall c :: c in r.body.courses <==> c.id in store && store[c.id] == c
  {
    Response(OK, CourseList(set k | k in store :: store[k]))
  }

  /** GET /api/cursos/{id}: the stored course, or 404 when there is none. */
  function GetByIdResponse(store: Store, id: CourseId): (r: Response<Body>)
    ensures r.status == OK <==> id in store
    ensures id in store ==> r.body == CourseBody(store[id])
    ensures id !in store ==> r == Response(NOT_FOUND, Message(COURSE_NOT_FOUND))
  {
    if id in store then Response(OK, CourseBody(store[id]))
    else Response(NOT_FOUND, Message(COURSE_NOT_FOUND))
  }

  /** GET /api/cursos/{id}/usuarios: the users on the course's roster, or 404 when there is no course. */
  function ListUsersByCourseResponse(store: Store, id: CourseId): (r: Response<Body>)
    ensures r.status == OK <==> id in store
    ensures id in store ==> r.body == UserIds(store[id].entries)
    ensures id !in store ==> r == Response(NOT_FOUND, Message(COURSE_NOT_FOUND))
  {
    if id in store then Response(OK, UserIds(store[id].entries))
    else Response(NOT_FOUND, Message(COURSE_NOT_FOUND))
  }

  /** POST /api/cursos: a request with validation errors is refused with 400 and nothing is
      written; otherwise the course is saved under the id the store assigns and returned with 201. */
  function CreateOutcome(store: Store, curso: Course, hasErrors: bool, freshId: CourseId): (o: Outcome)
    requires freshId !in store
    ensures hasErrors ==> o == Outcome(Response(BAD_REQUEST, ValidationErrors), store)
    ensures !hasErrors ==>
      && o.store.Keys == store.Keys + {freshId}
      && (forall k :: k in store ==> o.store[k] == store[k])
      && o.store[freshId] == curso.(id := freshId)
      && o.response == Response(CREATED, CourseBody(o.store[freshId]))
  {
    if hasErrors then Outcome(Response(BAD_REQUEST, ValidationErrors), store)
    else
      var saved := curso.(id := freshId);
      Outcome(Response(CREATED, CourseBody(saved)), store[freshId := saved])
  }

  /** PUT /api/cursos/{id}: validation errors give 400 and a missing course 404, neither writing;
      otherwise nombre, descripcion and creditos are overwritten from the request, the id and
      the roster are kept, and the saved course is returned with 201. */
  function UpdateOutcome(store: Store, id: CourseId, curso: Course, hasErrors: bool): (o: Outcome)
    ensures hasErrors ==> o == Outcome(Response(BAD_REQUEST, ValidationErrors), store)
    ensures !hasErrors && id !in store ==> o == Outcome(Response(NOT_FOUND, Message(COURSE_NOT_FOUND)), store)
    ensures !hasErrors && id in store ==>
      && OthersUnchanged(store, o.store, id)
      && o.store[id].id == store[id].id
      && o.store[id].entries == store[id].entries
      && o.store[id].nombre == curso.nombre
      && o.store[id].descripcion == curso.descripcion
      && o.store[id].creditos == curso.creditos
      && o.response == Response(CREATED, CourseBody(o.store[id]))
  {
    if hasErrors then Outcome(Response(BAD_REQUEST, ValidationErrors), store)
    else if id in store then
      var updated := store[id].(nombre := curso.nombre, descripcion := curso.descripcion, creditos := curso.creditos);
      Outcome(Response(CREATED, CourseBody(updated)), store[id := updated])
    else Outcome(Response(NOT_FOUND, Message(COURSE_NOT_FOUND)), store)
  }

  /** DELETE /api/cursos/{id}: a missing course gives 404 and no change; otherwise the course,
      roster included, is removed and nothing else changes. */
  function DeleteOutcome(store: Store, id: CourseId): (o: Outcome)
    ensures id !in store ==> o == Outcome(Response(NOT_FOUND, Message(COURSE_NOT_FOUND)), store)
    ensures id in store ==>
      && o.response == Response(OK, Message(COURSE_DELETED))
      && o.store.Keys == store.Keys - {id}
      && forall k :: k in o.store ==> o.store[k] == store[k]
  {
    if id in store then Outcome(Response(OK, Message(COURSE_DELETED)), store - {id})
    else Outcome(Response(NOT_FOUND, Message(COURSE_NOT_FOUND)), store)
  }

  /** POST /api/cursos/{id}/usuarios: the three checks in their fixed order (the user exists
      upstream, the course exists, the user is not yet on its roster); only when all pass is an
      entry appended and the course saved. Every refusal leaves the store as it was. */
  function AssignUserOutcome(store: Store, id: CourseId, userId: UserId, lookup: UserLookup): (o: Outcome)
    ensures lookup == TransportError ==>
      o == Outcome(Response(INTERNAL_SERVER_ERROR, Message(USER_SERVICE_ERROR)), store)
    ensures lookup == NotFound ==>
      o == Outcome(Response(NOT_FOUND, Message(USER_NOT_FOUND)), store)
    ensures lookup == Found && id !in store ==>
      o == Outcome(Response(NOT_FOUND, Message(COURSE_NOT_FOUND)), store)
    ensures lookup == Found && id in store && userId in store[id].entries ==>
      o == Outcome(Response(CONFLICT, Message(ALREADY_ENROLLED)), store)
    ensures o.response.status == CREATED <==> lookup == Found && id in store && userId !in store[id].entries
    ensures o.response.status == CREATED ==>
      && OthersUnchanged(store, o.store, id)
      && o.store[id] == store[id].(entries := AddUser(store[id].entries, userId))
      && o.response.body == CourseBody(o.store[id])
  {
    match lookup
    case TransportError => Outcome(Response(INTERNAL_SERVER_ERROR, Message(USER_SERVICE_ERROR)), store)
    case NotFound => Outcome(Response(NOT_FOUND, Message(USER_NOT_FOUND)), store)
    case Found =>
      if id !in store then Outcome(Response(NOT_FOUND, Message(COURSE_NOT_FOUND)), store)
      else if IsEnrolled(store[id].entries, userId) then
        Outcome(Response(CONFLICT, Message(ALREADY_ENROLLED)), store)
      else
        var curso := store[id].(entries := AddUser(store[id].entries, userId));
        Outcome(Response(CREATED, CourseBody(curso)), store[id := curso])
  }

  /** DELETE /api/cursos/{id}/usuarios/{usuarioId}: a missing course gives 404 and no change;
      otherwise every entry for the user is removed (none there is not an error) and 200 is returned. */
  function UnassignUserOutcome(store: Store, id: CourseId, userId: UserId): (o: Outcome)
    ensures id !in store ==> o == Outcome(Response(NOT_FOUND, Message(ENROLLMENT_NOT_FOUND)), store)
    ensures id in store ==>
      && o.response == Response(OK, Message(ENROLLMENT_REMOVED))
      && OthersUnchanged(store, o.store, id)
      && o.store[id] == store[id].(entries := RemoveUser(store[id].entries, userId))
      && userId !in o.store[id].entries
  {
    if id in store then
      var curso := store[id].(entries := RemoveUser(store[id].entries, userId));
      Outcome(Response(OK, Message(ENROLLMENT_REMOVED)), store[id := curso])
    else Outcome(Response(NOT_FOUND, Message(ENROLLMENT_NOT_FOUND)), store)
  }

  // ---------------------------------------------------------------------------------------
  // Properties of the handlers

  /** The list of all courses holds exactly the courses that GET by id answers with. */
  lemma ListAllMatchesGetById(store: Store, c: Course)
    requires KeyedById(store)
    ensures c in ListAllResponse(store).body.courses <==> GetByIdResponse(store, c.id) == Response(OK, CourseBody(c))
  {
  }

  /** A successful enrollment adds exactly one entry for the user, who had none before, and
      leaves every other user's entries alone; it keeps the course's roster duplicate-free. */
  lemma AssignUserEnrollsOnce(store: Store, id: CourseId, userId: UserId, lookup: UserLookup)
    requires AssignUserOutcome(store, id, userId, lookup).response.status == CREATED
    ensures id in store && Count(store[id].entries, userId) == 0
    ensures var after := AssignUserOutcome(store, id, userId, lookup).store[id].entries;
      && Count(after, userId) == 1
      && (forall v :: v != userId ==> Count(after, v) == Count(store[id].entries, v))
      && (NoDuplicates(store[id].entries) ==> NoDuplicates(after))
  {
    var before := store[id].entries;
    CountZeroIffAbsent(before, userId);
    CountAddUser(before, userId, userId);
    forall v | v != userId
      ensures Count(AddUser(before, userId), v) == Count(before, v)
    {
      CountAddUser(before, userId, v);
    }
    if NoDuplicates(before) {
      AddUserKeepsNoDuplicates(before, userId);
    }
  }

  /** Enrolling the same user in the same course twice: the second request is refused with
      409 and changes nothing. */
  lemma AssignUserTwiceConflicts(store: Store, id: CourseId, userId: UserId)
    requires AssignUserOutcome(store, id, userId, Found).response.status == CREATED
    ensures var once := AssignUserOutcome(store, id, userId, Found).store;
      AssignUserOutcome(once, id, userId, Found) == Outcome(Response(CONFLICT, Message(ALREADY_ENROLLED)), once)
  {
    var once := AssignUserOutcome(store, id, userId, Found).store;
    assert userId in once[id].entries by {
      assert once[id].entries == store[id].entries + [userId];
    }
  }

  /** Unenrolling twice: the second request answers 200 again and changes nothing. */
  lemma UnassignUserTwiceIsNoOp(store: Store, id: CourseId, userId: UserId)
    requires id in store
    ensures var once := UnassignUserOutcome(store, id, userId);
      UnassignUserOutcome(once.store, id, userId) == once
  {
    RemoveUserIdempotent(store[id].entries, userId);
    var once := UnassignUserOutcome(store, id, userId);
    assert once.store[id := once.store[id]] == once.store;
  }

  /** A successful enrollment followed by unenrolling the same user restores the store. */
  lemma UnassignUndoesAssign(store: Store, id: CourseId, userId: UserId, lookup: UserLookup)
    requires AssignUserOutcome(store, id, userId, lookup).response.status == CREATED
    ensures UnassignUserOutcome(AssignUserOutcome(store, id, userId, lookup).store, id, userId).store == store
  {
    RemoveUndoesAdd(store[id].entries, userId);
    var after := UnassignUserOutcome(AssignUserOutcome(store, id, userId, lookup).store, id, userId).store;
    assert after[id] == store[id];
  }

  /** After a course is deleted it is gone, roster included: GET by id and the roster listing
      answer 404, and deleting again answers 404. */
  lemma DeleteRemovesCourseAndRoster(store: Store, id: CourseId)
    requires id in store
    ensures var after := DeleteOutcome(store, id).store;
      && GetByIdResponse(after, id).status == NOT_FOUND
      && ListUsersByCourseResponse(after, id).status == NOT_FOUND
      && DeleteOutcome(after, id).response.status == NOT_FOUND
  {
  }

  /** A created course is what GET by its new id answers with. */
  lemma CreateThenGetById(store: Store, curso: Course, freshId: CourseId)
    requires freshId !in store
    ensures var o := CreateOutcome(store, curso, false, freshId);
      GetByIdResponse(o.store, freshId) == Response(OK, o.response.body)
  {
  }

  /** Updating twice with the same request leaves the same store as updating once. */
  lemma UpdateIdempotent(store: Store, id: CourseId, curso: Course, hasErrors: bool)
    ensures var once := UpdateOutcome(store, id, curso, hasErrors).store;
      UpdateOutcome(once, id, curso, hasErrors).store == once
  {
  }

  /** Every handler keeps each course under its own id. */
  lemma HandlersKeepKeyedById(store: Store, id: CourseId, curso: Course, hasErrors: bool,
                              freshId: CourseId, userId: UserId, lookup: UserLookup)
    requires KeyedById(store) && freshId !in store
    ensures KeyedById(CreateOutcome(store, curso, hasErrors, freshId).store)
    ensures KeyedById(UpdateOutcome(store, id, curso, hasErrors).store)
    ensures KeyedById(DeleteOutcome(store, id).store)
    ensures KeyedById(AssignUserOutcome(store, id, userId, lookup).store)
    ensures KeyedById(UnassignUserOutcome(store, id, userId).store)
  {
  }

  /** Enrollment, unenrollment, update and delete keep every roster duplicate-free; a create
      does so exactly when the roster it is given is duplicate-free. */
  lemma HandlersKeepRostersUnique(store: Store, id: CourseId, curso: Course, hasErrors: bool,
                                  freshId: CourseId, userId: UserId, lookup: UserLookup)
    requires RostersUnique(store) && freshId !in store
    ensures RostersUnique(CreateOutcome(store, curso, hasErrors, freshId).store) <==> hasErrors || NoDuplicates(curso.entries)
    ensures RostersUnique(UpdateOutcome(store, id, curso, hasErrors).store)
    ensures RostersUnique(DeleteOutcome(store, id).store)
    ensures RostersUnique(AssignUserOutcome(store, id, userId, lookup).store)
    ensures RostersUnique(UnassignUserOutcome(store, id, userId).store)
  {
    if AssignUserOutcome(store, id, userId, lookup).response.status == CREATED {
      AssignUserEnrollsOnce(store, id, userId, lookup);
    }
    if id in store {
      RemoveUserKeepsNoDuplicates(store[id].entries, userId);
    }
    if !hasErrors {
      assert CreateOutcome(store, curso, hasErrors, freshId).store[freshId].entries == curso.entries;
    }
  }

  // ---------------------------------------------------------------------------------------
  // The controller

  /** The course controller: its store of courses, changed in place by the handlers. */
  class CourseController {
    var courses: Store

    ghost predicate Valid()
      reads this
    {
      KeyedById(courses)
    }

    constructor ()
      ensures Valid() && courses == map[]
    {
      courses := map[];
    }

    method ListAll() returns (resp: Response<Body>)
      ensures resp == ListAllResponse(courses)
    {
      resp := Response(OK, CourseList(courses.Values));
    }

    method GetById(id: CourseId) returns (resp: Response<Body>)
      ensures resp == GetByIdResponse(courses, id)
    {
      if id in courses {
        return Response(OK, CourseBody(courses[id]));
      }
      return Response(NOT_FOUND, Message(COURSE_NOT_FOUND));
    }

    method ListUsersByCourse(id: CourseId) returns (resp: Response<Body>)
      ensures resp == ListUsersByCourseResponse(courses, id)
    {
      if id in courses {
        return Response(OK, UserIds(courses[id].entries));
      }
      return Response(NOT_FOUND, Message(COURSE_NOT_FOUND));
    }

    method Create(curso: Course, hasErrors: bool, freshId: CourseId) returns (resp: Response<Body>)
      requires Valid() && freshId !in courses
      modifies this
      ensures Valid()
      ensures Outcome(resp, courses) == CreateOutcome(old(courses), curso, hasErrors, freshId)
    {
      if hasErrors {
        return Response(BAD_REQUEST, ValidationErrors);
      }
      var cursoDb := curso.(id := freshId);
      courses := courses[freshId := cursoDb];
      resp := Response(CREATED, CourseBody(cursoDb));
    }

    method Update(curso: Course, hasErrors: bool, id: CourseId) returns (resp: Response<Body>)
      requires Valid()
      modifies this
      ensures Valid()
      ensures Outcome(resp, courses) == UpdateOutcome(old(courses), id, curso, hasErrors)
    {
      if hasErrors {
        return Response(BAD_REQUEST, ValidationErrors);
      }
      if id in courses {
        var cursoDb := courses[id];
        cursoDb := cursoDb.(nombre := curso.nombre);
        cursoDb := cursoDb.(descripcion := curso.descripcion);
        cursoDb := cursoDb.(creditos := curso.creditos);
        courses := courses[id := cursoDb];
        return Response(CREATED, CourseBody(cursoDb));
      }
      return Response(NOT_FOUND, Message(COURSE_NOT_FOUND));
    }

    method Delete(id: CourseId) returns (resp: Response<Body>)
      requires Valid()
      modifies this
      ensures Valid()
      ensures Outcome(resp, courses) == DeleteOutcome(old(courses), id)
    {
      if id in courses {
        courses := courses - {id};
        return Response(OK, Message(COURSE_DELETED));
      }
      return Response(NOT_FOUND, Message(COURSE_NOT_FOUND));
    }

    /** The user service's answer is an input: `lookup` is what it said about `userId`. */
    method AssignUser(id: CourseId, userId: UserId, lookup: UserLookup) returns (resp: Response<Body>)
      requires Valid()
      modifies this
      ensures Valid()
      ensures Outcome(resp, courses) == AssignUserOutcome(old(courses), id, userId, lookup)
    {
      if lookup == TransportError {
        return Response(INTERNAL_SERVER_ERROR, Message(USER_SERVICE_ERROR));
      }
      if lookup == NotFound {
        return Response(NOT_FOUND, Message(USER_NOT_FOUND));
      }
      if id in courses {
        var curso := courses[id];
        var isAlreadyEnrolled := IsEnrolled(curso.entries, userId);
        if isAlreadyEnrolled {
          return Response(CONFLICT, Message(ALREADY_ENROLLED));
        }
        curso := curso.(entries := AddUser(curso.entries, userId));
        courses := courses[id := curso];
        return Response(CREATED, CourseBody(curso));
      }
      return Response(NOT_FOUND, Message(COURSE_NOT_FOUND));
    }

    method UnassignUser(id: CourseId, userId: UserId) returns (resp: Response<Body>)
      requires Valid()
      modifies this
      ensures Valid()
      ensures Outcome(resp, courses) == UnassignUserOutcome(old(courses), id, userId)
    {
      if id in courses {
        var curso := courses[id];
        curso := curso.(entries := RemoveUser(curso.entries, userId));
        courses := courses[id := curso];
        return Response(OK, Message(ENROLLMENT_REMOVED));
      }
      return Response(NOT_FOUND, Message(ENROLLMENT_NOT_FOUND));
    }
  }
}
