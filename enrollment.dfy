/** The two services together: the course service's user lookup answered by the user
    service's GET by id, so that enrollment can be related to the user store. */
module Enrollment {
  import opened Http
  import Courses
  import Users
  import Ids

  /** How the course service's client of the user service reports a 404 from
      GET /api/usuarios/{id}: as an empty lookup, or by raising the client's exception,
      which the enrollment handler answers like any failed call. The client and the service
      layer that decide this are not part of this model, so both readings are kept. */
  datatype MissingUser = EmptyLookup | Raises

  /** The lookup the course service makes when the user service is reachable: a 200 from
      GET /api/usuarios/{id} is a user; a 404 is reported as `missing` says. */
  function LookupIn(users: Users.Store, userId: Ids.UserId, missing: MissingUser): (l: Courses.UserLookup)
    ensures l == Courses.Found <==> userId in users
    ensures l == Courses.NotFound <==> userId !in users && missing == EmptyLookup
    ensures l == Courses.TransportError <==> userId !in users && missing == Raises
  {
    if Users.FindByIdResponse(users, userId).status == OK then Courses.Found
    else match missing
      case EmptyLookup => Courses.NotFound
      case Raises => Courses.TransportError
  }

  /** Only a user the user service holds can be enrolled, whatever the course store holds; an
      unknown user is refused without a write, with 404 when the client reports it as an empty
      lookup and 500 when the client raises. */
  lemma EnrollOnlyRegisteredUsers(courses: Courses.Store, users: Users.Store, id: Courses.CourseId,
                                  userId: Ids.UserId, missing: MissingUser)
    ensures var o := Courses.AssignUserOutcome(courses, id, userId, LookupIn(users, userId, missing));
      && (o.response.status == CREATED ==> userId in users)
      && (userId !in users ==>
            && o.store == courses
            && o.response.status == (if missing == EmptyLookup then NOT_FOUND else INTERNAL_SERVER_ERROR))
  {
  }

  /** Once the user service has deleted a user, enrolling that user is refused without a write
      (404 "Usuario no encontrado" when the client reports an empty lookup, 500 when it raises).
      Entries already on rosters are not touched: they reference the user by id only. */
  lemma DeletedUserCannotEnroll(courses: Courses.Store, users: Users.Store, id: Courses.CourseId,
                                userId: Ids.UserId, missing: MissingUser)
    requires userId in users
    ensures var remaining := Users.DeleteOutcome(users, userId).store;
      var o := Courses.AssignUserOutcome(courses, id, userId, LookupIn(remaining, userId, missing));
      && o.store == courses
      && (missing == EmptyLookup ==> o.response == Response(NOT_FOUND, Courses.Message(Courses.USER_NOT_FOUND)))
      && (missing == Raises ==> o.response == Response(INTERNAL_SERVER_ERROR, Courses.Message(Courses.USER_SERVICE_ERROR)))
  {
  }

  /** The enrollment walk-through: course 1 is created, user 7 exists upstream; enrolling 7
      answers 201 with roster [7], enrolling again 409, unenrolling 200 with roster [], and
      unenrolling again 200 with roster []. */
  lemma EnrollmentWalkThrough(curso: Courses.Course, user: Users.User, missing: MissingUser)
    requires curso.entries == []
    ensures var created := Courses.CreateOutcome(map[], curso, false, 1).store;
      var users := map[7 := user.(id := 7)];
      var enrolled := Courses.AssignUserOutcome(created, 1, 7, LookupIn(users, 7, missing));
      var again := Courses.AssignUserOutcome(enrolled.store, 1, 7, LookupIn(users, 7, missing));
      var removed := Courses.UnassignUserOutcome(again.store, 1, 7);
      var removedAgain := Courses.UnassignUserOutcome(removed.store, 1, 7);
      && enrolled.response.status == CREATED && enrolled.store[1].entries == [7]
      && again.response.status == CONFLICT && again.store == enrolled.store
      && removed.response.status == OK && removed.store[1].entries == []
      && removedAgain.response.status == OK && removedAgain.store == removed.store
  {
  }
}
