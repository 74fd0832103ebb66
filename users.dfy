/** The user service's controller: user CRUD over a store keyed by user id.

    As for courses, each handler is a pure function from the store and the request to an
    Outcome, on which the properties are proved, and a method of UserController that performs
    the handler's steps on the controller's store and is proved to produce that Outcome. */
module Users {
  import opened Http
  import opened Ids

  /** A calendar date, kept as its three components. */
  datatype Date = Date(year: int, month: int, day: int)

  /** A user record. */
  datatype User = User(id: UserId, nombre: string, apellido: string, email: string,
                       telefono: string, fechaNacimiento: Date)

  /** The persisted users, keyed by id. */
  type Store = map<UserId, User>

  /** Payloads of the user service's responses; NoBody is the empty 404 of a missing user. */
  datatype Body =
    | UserBody(user: User)
    | UserList(users: set<User>)
    | Message(text: string)
    | ValidationErrors
    | NoBody

  /** A handler's response together with the store it leaves behind. */
  datatype Outcome = Outcome(response: Response<Body>, store: Store)

  const USER_NOT_FOUND: string := "Usuario no encontrado"
  const USER_DELETED: string := "Usuario eliminado correctamente"

  /** Every user is stored under its own id. */
  predicate KeyedById(store: Store)
  {
    forall k :: k in store ==> store[k].id == k
  }

  // ---------------------------------------------------------------------------------------
  // Handlers as functions of the store

  /** GET /api/usuarios: every stored user, answered with 200. */
  function FindAllResponse(store: Store): (r: Response<Body>)
    ensures r.status == OK && r.body.UserList?
    ensures forall k :: k in store ==> store[k] in r.body.users
    ensures forall u :: u in r.body.users ==> u in store.Values
    ensures r.body.users == store.Values
    ensures KeyedById(store) ==> forall u :: u in r.body.users <==> u.id in store && store[u.id] == u
  {
    Response(OK, UserList(set k | k in store :: store[k]))
  }

  /** GET /api/usuarios/{id}: the stored user with 200, or 404 with no body when there is none. */
  function FindByIdResponse(store: Store, id: UserId): (r: Response<Body>)
    ensures r.status == OK <==> id in store
    ensures id in store ==> r.body == UserBody(store[id])
    ensures id !in store ==> r == Response(NOT_FOUND, NoBody)
  {
    if id in store then Response(OK, UserBody(store[id])) else Response(NOT_FOUND, NoBody)
  }

  /** POST /api/usuarios: validation errors give 400 and no write; otherwise the user is saved
      under the id the store assigns and returned with 201. */
  function CreateOutcome(store: Store, usuario: User, hasErrors: bool, freshId: UserId): (o: Outcome)
    requires freshId !in store
    ensures hasErrors ==> o == Outcome(Response(BAD_REQUEST, ValidationErrors), store)
    ensures !hasErrors ==>
      && o.store.Keys == store.Keys + {freshId}
      && (forall k :: k in store ==> o.store[k] == store[k])
      && o.store[freshId] == usuario.(id := freshId)
      && o.response == Response(CREATED, UserBody(o.store[freshId]))
  {
    if hasErrors then Outcome(Response(BAD_REQUEST, ValidationErrors), store)
    else
      var saved := usuario.(id := freshId);
      Outcome(Response(CREATED, UserBody(saved)), store[freshId := saved])
  }

  /** PUT /api/usuarios/{id}: validation errors give 400 and a missing user 404, neither
      writing; otherwise exactly nombre, apellido, email, telefono and fechaNacimiento are
      overwritten, the id is kept, no other user changes, and the saved user comes back with 201. */
  function UpdateOutcome(store: Store, id: UserId, usuario: User, hasErrors: bool): (o: Outcome)
    ensures hasErrors ==> o == Outcome(Response(BAD_REQUEST, ValidationErrors), store)
    ensures !hasErrors && id !in store ==> o == Outcome(Response(NOT_FOUND, Message(USER_NOT_FOUND)), store)
    ensures !hasErrors && id in store ==>
      && o.store.Keys == store.Keys
      && (forall k :: k in store && k != id ==> o.store[k] == store[k])
      && o.store[id].id == store[id].id
      && o.store[id].nombre == usuario.nombre
      && o.store[id].apellido == usuario.apellido
      && o.store[id].email == usuario.email
      && o.store[id].telefono == usuario.telefono
      && o.store[id].fechaNacimiento == usuario.fechaNacimiento
      && o.response == Response(CREATED, UserBody(o.store[id]))
  {
    if hasErrors then Outcome(Response(BAD_REQUEST, ValidationErrors), store)
    else if id in store then
      var updated := store[id].(nombre := usuario.nombre, apellido := usuario.apellido, email := usuario.email,
                                telefono := usuario.telefono, fechaNacimiento := usuario.fechaNacimiento);
      Outcome(Response(CREATED, UserBody(updated)), store[id := updated])
    else Outcome(Response(NOT_FOUND, Message(USER_NOT_FOUND)), store)
  }

  /** DELETE /api/usuarios/{id}: a missing user gives 404 and no change; otherwise that user
      alone is removed and 200 is returned. */
  function DeleteOutcome(store: Store, id: UserId): (o: Outcome)
    ensures id !in store ==> o == Outcome(Response(NOT_FOUND, Message(USER_NOT_FOUND)), store)
    ensures id in store ==>
      && o.response == Response(OK, Message(USER_DELETED))
      && o.store.Keys == store.Keys - {id}
      && forall k :: k in o.store ==> o.store[k] == store[k]
  {
    if id in store then Outcome(Response(OK, Message(USER_DELETED)), store - {id})
    else Outcome(Response(NOT_FOUND, Message(USER_NOT_FOUND)), store)
  }

  // ---------------------------------------------------------------------------------------
  // Properties of the handlers

  /** The list of all users holds exactly the users that GET by id answers with. */
  lemma FindAllMatchesFindById(store: Store, u: User)
    requires KeyedById(store)
    ensures u in FindAllResponse(store).body.users <==> FindByIdResponse(store, u.id) == Response(OK, UserBody(u))
  {
  }

  /** A created user is what GET by its new id answers with. */
  lemma CreateThenFindById(store: Store, usuario: User, freshId: UserId)
    requires freshId !in store
    ensures var o := CreateOutcome(store, usuario, false, freshId);
      FindByIdResponse(o.store, freshId) == Response(OK, o.response.body)
  {
  }

  /** Updating twice with the same request leaves the same store as updating once. */
  lemma UpdateIdempotent(store: Store, id: UserId, usuario: User, hasErrors: bool)
    ensures var once := UpdateOutcome(store, id, usuario, hasErrors).store;
      UpdateOutcome(once, id, usuario, hasErrors).store == once
  {
  }

  /** A deleted user is gone: GET by id answers 404, and deleting again answers 404 and changes nothing. */
  lemma DeleteThenGone(store: Store, id: UserId)
    requires id in store
    ensures var after := DeleteOutcome(store, id).store;
      && FindByIdResponse(after, id).status == NOT_FOUND
      && DeleteOutcome(after, id) == Outcome(Response(NOT_FOUND, Message(USER_NOT_FOUND)), after)
  {
  }

  /** Every handler keeps each user under its own id. */
  lemma HandlersKeepKeyedById(store: Store, id: UserId, usuario: User, hasErrors: bool, freshId: UserId)
    requires KeyedById(store) && freshId !in store
    ensures KeyedById(CreateOutcome(store, usuario, hasErrors, freshId).store)
    ensures KeyedById(UpdateOutcome(store, id, usuario, hasErrors).store)
    ensures KeyedById(DeleteOutcome(store, id).store)
  {
  }

  // ---------------------------------------------------------------------------------------
  // The controller

  /** The user controller: its store of users, changed in place by the handlers. */
  class UserController {
    var users: Store

    ghost predicate Valid()
      reads this
    {
      KeyedById(users)
    }

    constructor ()
      ensures Valid() && users == map[]
    {
      users := map[];
    }

    method FindAll() returns (resp: Response<Body>)
      ensures resp == FindAllResponse(users)
    {
      resp := Response(OK, UserList(users.Values));
    }

    method FindById(id: UserId) returns (resp: Response<Body>)
      ensures resp == FindByIdResponse(users, id)
    {
      if id in users {
        return Response(OK, UserBody(users[id]));
      }
      return Response(NOT_FOUND, NoBody);
    }

    method Create(usuario: User, hasErrors: bool, freshId: UserId) returns (resp: Response<Body>)
      requires Valid() && freshId !in users
      modifies this
      ensures Valid()
      ensures Outcome(resp, users) == CreateOutcome(old(users), usuario, hasErrors, freshId)
    {
      if hasErrors {
        return Response(BAD_REQUEST, ValidationErrors);
      }
      var usuarioCreado := usuario.(id := freshId);
      users := users[freshId := usuarioCreado];
      resp := Response(CREATED, UserBody(usuarioCreado));
    }

    method Update(id: UserId, usuario: User, hasErrors: bool) returns (resp: Response<Body>)
      requires Valid()
      modifies this
      ensures Valid()
      ensures Outcome(resp, users) == UpdateOutcome(old(users), id, usuario, hasErrors)
    {
      if hasErrors {
        return Response(BAD_REQUEST, ValidationErrors);
      }
      if id in users {
        var usuarioDb := users[id];
        usuarioDb := usuarioDb.(nombre := usuario.nombre);
        usuarioDb := usuarioDb.(apellido := usuario.apellido);
        usuarioDb := usuarioDb.(email := usuario.email);
        usuarioDb := usuarioDb.(telefono := usuario.telefono);
        usuarioDb := usuarioDb.(fechaNacimiento := usuario.fechaNacimiento);
        users := users[id := usuarioDb];
        return Response(CREATED, UserBody(usuarioDb));
      }
      return Response(NOT_FOUND, Message(USER_NOT_FOUND));
    }

    method Delete(id: UserId) returns (resp: Response<Body>)
      requires Valid()
      modifies this
      ensures Valid()
      ensures Outcome(resp, users) == DeleteOutcome(old(users), id)
    {
      if id in users {
        users := users - {id};
        return Response(OK, Message(USER_DELETED));
      }
      return Response(NOT_FOUND, Message(USER_NOT_FOUND));
    }
  }
}
