/** The sign-up handler: validate, create the user, sign a token, set the
    cookie, answer 201; on a thrown error, maybe 409, then `next(error)`.

    The sign-up schema is not part of this model: the handler receives the
    outcome of validating the body. Token signing is a function from claims to
    a token string, or to the error it throws. */
module AuthController {
  import opened Common
  import opened AuthService

  const DuplicateEmailMessage: string := "User with this email already exists"

  /** The user as the 201 response shows it. */
  datatype RegisteredUser = RegisteredUser(id: nat, name: string, email: string, role: string)

  datatype Payload =
    | ValidationFailed(detail: seq<Issue>)                 // { error: 'Validation failed', detail }
    | Registered(message: string, user: RegisteredUser)    // { message, user }
    | ErrorOnly(error: string)                             // { error }

  /** What the handler does, in order: sign a token, set a cookie on the
      response, send a response, call `next`. */
  datatype Effect =
    | SignToken(claims: Claims)
    | SetCookie(name: string, value: string)
    | Send(status: int, payload: Payload)
    | CallNext(error: Error)

  predicate SendsStatus(effects: seq<Effect>, status: int) {
    exists i :: 0 <= i < |effects| && effects[i].Send? && effects[i].status == status
  }

  /** The `catch` block: 409 if the message matches, then `next(e)` in any case. */
  function Caught(e: Error): seq<Effect> {
    (if e.message == DuplicateEmailMessage then [Send(409, ErrorOnly("Email already exists"))] else [])
      + [CallNext(e)]
  }

  /** The effects of the handler once `createUser` has returned or thrown. */
  function AfterCreate(created: Result<PublicUser, Error>, sign: Claims -> Result<string, Error>): seq<Effect> {
    match created
    case Ok(user) =>
      var claims := Claims(user.id, user.email, user.role);
      (match sign(claims)
       case Err(e) => [SignToken(claims)] + Caught(e)
       case Ok(token) =>
         [ SignToken(claims),
           SetCookie("token", token),
           Send(201, Registered("User registered successfully", RegisteredUser(user.id, user.name, user.email, user.role))) ])
    case Err(e) => Caught(e)
  }

  /** The sign-up effects as a function of the table before the call. */
  function SignupEffects(rows: seq<UserRow>, nextId: nat, validation: Result<NewUser, seq<Issue>>,
                         hasher: Hasher, sign: Claims -> Result<string, Error>, now: Timestamp): seq<Effect> {
    if validation.Err? then [Send(400, ValidationFailed(validation.error))]
    else AfterCreate(CreateUserSpec(rows, nextId, validation.value, hasher, now).result, sign)
  }

  /** `signup`, as written. */
  method Signup(table: UserTable, validation: Result<NewUser, seq<Issue>>, hasher: Hasher,
                sign: Claims -> Result<string, Error>, now: Timestamp) returns (effects: seq<Effect>)
    requires table.Valid()
    modifies table
    ensures table.Valid()
    ensures effects == SignupEffects(old(table.rows), old(table.nextId), validation, hasher, sign, now)
    ensures validation.Err? ==> table.rows == old(table.rows) && table.nextId == old(table.nextId)
    ensures validation.Ok? ==>
      var c := CreateUserSpec(old(table.rows), old(table.nextId), validation.value, hasher, now);
      table.rows == c.rows && table.nextId == c.nextId
  {
    if validation.Err? {
      return [Send(400, ValidationFailed(validation.error))];
    }
    var thrown: Option<Error> := None;
    var user := table.CreateUser(validation.value, hasher, now);
    if user.Ok? {
      var claims := Claims(user.value.id, user.value.email, user.value.role);
      var token := sign(claims);
      effects := [SignToken(claims)];
      if token.Err? {
        // the row stays inserted; the catch block takes over
        thrown := Some(token.error);
      } else {
        effects := effects + [SetCookie("token", token.value)];
        effects := effects + [Send(201, Registered("User registered successfully",
          RegisteredUser(user.value.id, user.value.name, user.value.email, user.value.role)))];
      }
    } else {
      effects := [];
      thrown := Some(user.error);
    }
    if thrown.Some? {
      if thrown.value.message == DuplicateEmailMessage {
        effects := effects + [Send(409, ErrorOnly("Email already exists"))];
      }
      effects := effects + [CallNext(thrown.value)];
    }
  }

  /** On success the token carries exactly the new user's id, email and role,
      the cookie is named `token`, and the 201 body shows the user without a
      password. */
  lemma SignupSuccess(rows: seq<UserRow>, nextId: nat, input: NewUser, hasher: Hasher,
                      sign: Claims -> Result<string, Error>, now: Timestamp)
    requires CreateUserSpec(rows, nextId, input, hasher, now).result.Ok?
    ensures var e := SignupEffects(rows, nextId, Ok(input), hasher, sign, now);
      var role := if input.role.None? then UserRole else input.role.value;
      var claims := Claims(nextId, input.email, role);
      sign(claims).Ok? ==>
        e == [ SignToken(claims), SetCookie("token", sign(claims).value),
               Send(201, Registered("User registered successfully", RegisteredUser(nextId, input.name, input.email, role))) ]
  {
  }

  /** When signing the token throws after the insert, the new row stays in the
      table, no cookie is set, no 201 is sent, and `next` receives the
      signing error. */
  lemma SignFailureKeepsUser(rows: seq<UserRow>, nextId: nat, input: NewUser, hasher: Hasher,
                             sign: Claims -> Result<string, Error>, now: Timestamp)
    requires CreateUserSpec(rows, nextId, input, hasher, now).result.Ok?
    ensures var c := CreateUserSpec(rows, nextId, input, hasher, now);
      var e := SignupEffects(rows, nextId, Ok(input), hasher, sign, now);
      var claims := Claims(nextId, input.email, c.rows[|rows|].role);
      sign(claims).Err? ==> (
        && |c.rows| == |rows| + 1 && c.rows[|rows|].email == input.email
        && !SendsStatus(e, 201)
        && (forall k :: 0 <= k < |e| ==> !e[k].SetCookie?)
        && e[|e| - 1] == CallNext(sign(claims).error))
  {
  }

  /** The token utility never throws the duplicate-email message. */
  ghost predicate SignErrorsDistinct(sign: Claims -> Result<string, Error>) {
    forall claims :: sign(claims).Err? ==> sign(claims).error.message != DuplicateEmailMessage
  }

  /** When `createUser` throws, no token is signed, no cookie is set, nothing is
      sent, and `next` receives the error. */
  lemma SignupFailureForwards(rows: seq<UserRow>, nextId: nat, input: NewUser, hasher: Hasher,
                              sign: Claims -> Result<string, Error>, now: Timestamp)
    requires CreateUserSpec(rows, nextId, input, hasher, now).result.Err?
    ensures SignupEffects(rows, nextId, Ok(input), hasher, sign, now) == [CallNext(Error(CreateFailedMessage))]
  {
  }

  /** The 409 branch is dead: `createUser` throws only 'Error creating user',
      never the message the handler tests for. */
  lemma SignupNever409(rows: seq<UserRow>, nextId: nat, validation: Result<NewUser, seq<Issue>>,
                       hasher: Hasher, sign: Claims -> Result<string, Error>, now: Timestamp)
    requires SignErrorsDistinct(sign)
    ensures !SendsStatus(SignupEffects(rows, nextId, validation, hasher, sign, now), 409)
  {
  }

  /** A second sign-up with a taken email is forwarded as a generic error. */
  lemma DuplicateSignupForwarded(rows: seq<UserRow>, nextId: nat, input: NewUser, hasher: Hasher,
                                 sign: Claims -> Result<string, Error>, now: Timestamp)
    requires EmailTaken(rows, input.email)
    ensures SignupEffects(rows, nextId, Ok(input), hasher, sign, now) == [CallNext(Error(CreateFailedMessage))]
  {
  }

  // ---------------------------------------------------------------------------
  // The duplicate-email path as it is evidently meant to work
  // ---------------------------------------------------------------------------

  /** `createUser` with the duplicate case thrown as the message the handler
      tests for, and every other failure as before. */
  function CreateUserFixed(rows: seq<UserRow>, nextId: nat, input: NewUser, hasher: Hasher, now: Timestamp): Created {
    if EmailTaken(rows, input.email) then Created(Err(Error(DuplicateEmailMessage)), rows, nextId)
    else CreateUserSpec(rows, nextId, input, hasher, now)
  }

  /** The catch block answering 409 and returning, instead of also calling `next`. */
  function AfterCreateFixed(created: Result<PublicUser, Error>, sign: Claims -> Result<string, Error>): seq<Effect> {
    if created.Err? && created.error.message == DuplicateEmailMessage then [Send(409, ErrorOnly("Email already exists"))]
    else AfterCreate(created, sign)
  }

  function SignupEffectsFixed(rows: seq<UserRow>, nextId: nat, validation: Result<NewUser, seq<Issue>>,
                              hasher: Hasher, sign: Claims -> Result<string, Error>, now: Timestamp): seq<Effect> {
    if validation.Err? then [Send(400, ValidationFailed(validation.error))]
    else AfterCreateFixed(CreateUserFixed(rows, nextId, validation.value, hasher, now).result, sign)
  }

  /** Corrected: a taken email gets exactly one 409 response and nothing else,
      and every other sign-up behaves as written. */
  lemma FixedDuplicateSignupGets409(rows: seq<UserRow>, nextId: nat, validation: Result<NewUser, seq<Issue>>,
                                    hasher: Hasher, sign: Claims -> Result<string, Error>, now: Timestamp)
    ensures validation.Ok? && EmailTaken(rows, validation.value.email) ==>
      SignupEffectsFixed(rows, nextId, validation, hasher, sign, now) == [Send(409, ErrorOnly("Email already exists"))]
    ensures validation.Err? || !EmailTaken(rows, validation.value.email) ==>
      SignupEffectsFixed(rows, nextId, validation, hasher, sign, now) == SignupEffects(rows, nextId, validation, hasher, sign, now)
  {
  }
}
