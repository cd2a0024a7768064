/** The handlers of the users resource: each is a guard chain that ends in one
    response or in handing the error to the next error handler.

    The users service is not part of this model: each handler receives the
    service call it makes as a function, so that whether the service is
    consulted at all is visible in the result. `U` is whatever record the
    service returns. */
module UsersController {
  import opened Common
  import opened UsersValidation

  const NotFoundMessage: string := "User not found"
  const UpdateOthersMessage: string := "You can only update your own information"
  const ChangeRoleMessage: string := "Only administrators can change user roles"
  const DeleteOthersMessage: string := "You can only delete your own account"

  /** What a handler throws when it reads `currentUser.id` with no `req.user` set. */
  const MissingUserError: Error := Error("Cannot read properties of undefined (reading 'id')")

  /** The JSON bodies the handlers send. */
  datatype Payload<U> =
    | ValidationFailed(detail: seq<Issue>)           // { error: 'Validation failed', detail }
    | Forbidden(message: string)                     // { error: 'Forbidden', message }
    | ErrorOnly(error: string)                       // { error }
    | UserList(message: string, users: seq<U>, count: nat)
    | OneUser(message: string, user: U)
    | MessageOnly(message: string)

  /** A handler either writes one response or calls `next(error)`. */
  datatype Reply<U> = Respond(status: nat, payload: Payload<U>) | Forward(error: Error)

  /** The catch block shared by the handlers that look up one user. */
  function ServiceFailure<U>(e: Error): Reply<U> {
    if e.message == NotFoundMessage then Respond(404, ErrorOnly(NotFoundMessage)) else Forward(e)
  }

  /** The ownership rule of update and delete. */
  predicate OwnerOrAdmin(user: Claims, id: nat) {
    user.id == id || user.role == AdminRole
  }

  /** JavaScript truthiness of a string. */
  predicate Truthy(s: string) {
    s != ""
  }

  // ---------------------------------------------------------------------------
  // getAllUsers
  // ---------------------------------------------------------------------------

  function GetAllUsers<U>(fetched: Result<seq<U>, Error>): (r: Reply<U>)
    ensures fetched.Ok? ==> (
      && r.Respond? && r.status == 200 && r.payload.UserList?
      && r.payload.users == fetched.value && r.payload.count == |r.payload.users|)
    ensures fetched.Err? ==> r == Forward(fetched.error)
  {
    match fetched
    case Ok(users) => Respond(200, UserList("Sucessfully retrived users", users, |users|))
    case Err(e) => Forward(e)
  }

  // ---------------------------------------------------------------------------
  // getUserById
  // ---------------------------------------------------------------------------

  function GetUserById<U>(idParam: string, lookup: nat -> Result<U, Error>): (r: Reply<U>)
    ensures ParseUserId(idParam).Err? ==> r == Respond(400, ValidationFailed(ParseUserId(idParam).error))
    ensures r.Respond? && r.status == 200 <==> ParseUserId(idParam).Ok? && lookup(ParseUserId(idParam).value).Ok?
    ensures r.Respond? && r.status == 404 <==>
      ParseUserId(idParam).Ok? && lookup(ParseUserId(idParam).value) == Err(Error(NotFoundMessage))
    ensures r.Forward? ==> (
      && ParseUserId(idParam).Ok? && lookup(ParseUserId(idParam).value) == Err(r.error)
      && r.error.message != NotFoundMessage)
    // a found user is sent as it is; a missing one gets the 'User not found' body
    ensures ParseUserId(idParam).Ok? && lookup(ParseUserId(idParam).value).Ok? ==>
      r == Respond(200, OneUser("Successfully retrieved user", lookup(ParseUserId(idParam).value).value))
    ensures r.Respond? && r.status == 404 ==> r.payload == ErrorOnly(NotFoundMessage)
  {
    match ParseUserId(idParam)
    case Err(issues) => Respond(400, ValidationFailed(issues))
    case Ok(id) =>
      match lookup(id)
      case Ok(user) => Respond(200, OneUser("Successfully retrieved user", user))
      case Err(e) => ServiceFailure(e)
  }

  // ---------------------------------------------------------------------------
  // updateUser
  // ---------------------------------------------------------------------------

  /** Both the path id and the body are valid: the point from which the
      principal is consulted. */
  predicate UpdateInputValid(idParam: string, body: UpdateBody, isEmail: string -> bool) {
    ParseUserId(idParam).Ok? && ValidateUpdate(body, isEmail).Ok?
  }

  /** The update reaches the service: valid input, an owner or an admin, and a
      role change only from an admin. */
  predicate UpdateAuthorised(user: Option<Claims>, idParam: string, body: UpdateBody, isEmail: string -> bool) {
    && UpdateInputValid(idParam, body, isEmail)
    && user.Some?
    && OwnerOrAdmin(user.value, ParseUserId(idParam).value)
    && (body.UpdateObject? && body.role.Some? ==> user.value.role == AdminRole)
  }

  function UpdateUser<U>(user: Option<Claims>, idParam: string, body: UpdateBody, isEmail: string -> bool,
                         update: (nat, UserUpdate) -> Result<U, Error>): (r: Reply<U>)
    // 400 for the id first, then 400 for the body, before anything else is looked at
    ensures ParseUserId(idParam).Err? ==> r == Respond(400, ValidationFailed(ParseUserId(idParam).error))
    ensures ParseUserId(idParam).Ok? && ValidateUpdate(body, isEmail).Err? ==>
      r == Respond(400, ValidationFailed(ValidateUpdate(body, isEmail).error))
    // with no principal attached, reading its id throws and the error is forwarded
    ensures UpdateInputValid(idParam, body, isEmail) && user.None? ==> r == Forward(MissingUserError)
    // 403 for someone else's record, whatever the service would say about the id
    ensures r == Respond(403, Forbidden(UpdateOthersMessage)) <==>
      UpdateInputValid(idParam, body, isEmail) && user.Some? && !OwnerOrAdmin(user.value, ParseUserId(idParam).value)
    // 403 for a role change by a non-admin, even on their own record
    ensures r == Respond(403, Forbidden(ChangeRoleMessage)) <==> (
      && UpdateInputValid(idParam, body, isEmail) && user.Some?
      && OwnerOrAdmin(user.value, ParseUserId(idParam).value)
      && body.role.Some? && user.value.role != AdminRole)
    // the service is called exactly when authorised, and 404 comes only from it
    ensures UpdateAuthorised(user, idParam, body, isEmail) ==>
      var res := update(ParseUserId(idParam).value, ValidateUpdate(body, isEmail).value);
      r == (if res.Ok? then Respond(200, OneUser("User updated successfully", res.value)) else ServiceFailure(res.error))
    ensures r.Respond? && r.status == 404 ==> UpdateAuthorised(user, idParam, body, isEmail)
    ensures r.Respond? && r.status == 200 ==> UpdateAuthorised(user, idParam, body, isEmail)
  {
    match ParseUserId(idParam)
    case Err(issues) => Respond(400, ValidationFailed(issues))
    case Ok(id) =>
      match ValidateUpdate(body, isEmail)
      case Err(issues) => Respond(400, ValidationFailed(issues))
      case Ok(updates) =>
        match user
        case None => Forward(MissingUserError)
        case Some(currentUser) =>
          if currentUser.id != id && currentUser.role != AdminRole then
            Respond(403, Forbidden(UpdateOthersMessage))
          else if updates.role.Some? && Truthy(updates.role.value) && currentUser.role != AdminRole then
            Respond(403, Forbidden(ChangeRoleMessage))
          else
            match update(id, updates)
            case Ok(updated) => Respond(200, OneUser("User updated successfully", updated))
            case Err(e) => ServiceFailure(e)
  }

  /** A handler that refuses never consults the service: two services that
      disagree on everything yield the same reply. */
  lemma UpdateRefusalIgnoresService<U>(user: Option<Claims>, idParam: string, body: UpdateBody, isEmail: string -> bool,
                                       update1: (nat, UserUpdate) -> Result<U, Error>,
                                       update2: (nat, UserUpdate) -> Result<U, Error>)
    requires !UpdateAuthorised(user, idParam, body, isEmail)
    ensures UpdateUser(user, idParam, body, isEmail, update1) == UpdateUser(user, idParam, body, isEmail, update2)
    ensures UpdateUser(user, idParam, body, isEmail, update1).Respond? ==>
      UpdateUser(user, idParam, body, isEmail, update1).status in {400, 403}
  {
  }

  /** A non-owner who is not an admin and sends a bad body learns only that the
      body is bad. */
  lemma BadBodyBeforeForbidden<U>(user: Claims, idParam: string, body: UpdateBody, isEmail: string -> bool,
                                   update: (nat, UserUpdate) -> Result<U, Error>)
    requires ParseUserId(idParam).Ok? && !OwnerOrAdmin(user, ParseUserId(idParam).value)
    requires ValidateUpdate(body, isEmail).Err?
    ensures UpdateUser(Some(user), idParam, body, isEmail, update).status == 400
  {
  }

  // ---------------------------------------------------------------------------
  // deleteUser
  // ---------------------------------------------------------------------------

  predicate DeleteAuthorised(user: Option<Claims>, idParam: string) {
    ParseUserId(idParam).Ok? && user.Some? && OwnerOrAdmin(user.value, ParseUserId(idParam).value)
  }

  function DeleteUser<U>(user: Option<Claims>, idParam: string, remove: nat -> Option<Error>): (r: Reply<U>)
    ensures ParseUserId(idParam).Err? ==> r == Respond(400, ValidationFailed(ParseUserId(idParam).error))
    ensures ParseUserId(idParam).Ok? && user.None? ==> r == Forward(MissingUserError)
    ensures r == Respond(403, Forbidden(DeleteOthersMessage)) <==>
      ParseUserId(idParam).Ok? && user.Some? && !OwnerOrAdmin(user.value, ParseUserId(idParam).value)
    ensures DeleteAuthorised(user, idParam) ==>
      var res := remove(ParseUserId(idParam).value);
      r == (if res.None? then Respond(200, MessageOnly("User deleted successfully")) else ServiceFailure(res.value))
    ensures r.Respond? && r.status in {200, 404} ==> DeleteAuthorised(user, idParam)
  {
    match ParseUserId(idParam)
    case Err(issues) => Respond(400, ValidationFailed(issues))
    case Ok(id) =>
      match user
      case None => Forward(MissingUserError)
      case Some(currentUser) =>
        if currentUser.id != id && currentUser.role != AdminRole then
          Respond(403, Forbidden(DeleteOthersMessage))
        else
          match remove(id)
          case None => Respond(200, MessageOnly("User deleted successfully"))
          case Some(e) => ServiceFailure(e)
  }

  /** Deleting an id that does not exist is 404 for its owner or an admin, and
      403 for anyone else. */
  lemma DeleteMissingUser<U>(user: Claims, idParam: string)
    requires ParseUserId(idParam).Ok?
    ensures var r: Reply<U> := DeleteUser(Some(user), idParam, (id: nat) => Some(Error(NotFoundMessage)));
      r.status == (if OwnerOrAdmin(user, ParseUserId(idParam).value) then 404 else 403)
  {
  }
}
