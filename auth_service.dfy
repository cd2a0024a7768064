/** Sign-up and sign-in over the `users` table.

    The table is a sequence of rows with a serial id counter. The password
    hasher is a pair of functions: `hash(p)` is None where hashing throws, and
    `compare(p, h)` is None where comparing throws. The only thing assumed of
    them is `Sound` below: a password matches its own hash. */
module AuthService {
  import opened Common

  const AlreadyExistsMessage: string := "User already exists"
  const HashFailedMessage: string := "Error hashing the password"
  const CompareFailedMessage: string := "Error comparing the password"
  const CreateFailedMessage: string := "Error creating user"
  const NotFoundMessage: string := "User not found"
  const InvalidPasswordMessage: string := "Invalid password"
  /** What the database reports when a value does not fit a varchar(255) column. */
  const ValueTooLongMessage: string := "value too long for type character varying(255)"

  /** Every text column of the table is varchar(255). */
  const ColumnLength: nat := 255

  /** One row of the `users` table. */
  datatype UserRow = UserRow(id: nat, name: string, email: string, password: string, role: string,
                             createdAt: Timestamp, updatedAt: Timestamp)

  /** The columns the service returns: every column but the password hash and `updated_at`. */
  datatype PublicUser = PublicUser(id: nat, name: string, email: string, role: string, createdAt: Timestamp)

  /** What `createUser` is given; a missing role defaults to 'user'. */
  datatype NewUser = NewUser(name: string, email: string, password: string, role: Option<string>)

  datatype Hasher = Hasher(hash: string -> Option<string>, compare: (string, string) -> Option<bool>)

  ghost predicate Sound(h: Hasher) {
    forall p :: h.hash(p).Some? ==> h.compare(p, h.hash(p).value) == Some(true)
  }

  function Project(row: UserRow): PublicUser {
    PublicUser(row.id, row.name, row.email, row.role, row.createdAt)
  }

  predicate FitsColumns(row: UserRow) {
    |row.name| <= ColumnLength && |row.email| <= ColumnLength
    && |row.password| <= ColumnLength && |row.role| <= ColumnLength
  }

  predicate EmailTaken(rows: seq<UserRow>, email: string) {
    exists i :: 0 <= i < |rows| && rows[i].email == email
  }

  /** `select … where email = $1 limit 1`: the first row whose email is exactly `email`. */
  function FindByEmail(rows: seq<UserRow>, email: string): (r: Option<nat>)
    ensures r.Some? ==> r.value < |rows| && rows[r.value].email == email
    ensures r.Some? ==> forall j :: 0 <= j < r.value ==> rows[j].email != email
    ensures r.None? <==> !EmailTaken(rows, email)
    decreases |rows|
  {
    if |rows| == 0 then None
    else if rows[0].email == email then Some(0)
    else match FindByEmail(rows[1..], email)
      case None => None
      case Some(i) => Some(i + 1)
  }

  /** The table's invariant: serial ids from 1, below the counter and
      increasing, and no email twice. */
  predicate TableValid(rows: seq<UserRow>, nextId: nat) {
    && 1 <= nextId
    && (forall i :: 0 <= i < |rows| ==> 1 <= rows[i].id < nextId)
    && (forall i, j :: 0 <= i < j < |rows| ==> rows[i].id < rows[j].id)
    && (forall i, j :: 0 <= i < j < |rows| ==> rows[i].email != rows[j].email)
  }

  // ---------------------------------------------------------------------------
  // createUser
  // ---------------------------------------------------------------------------

  /** The body of the `try` block of `createUser`: the row to insert, or the
      error it throws. */
  function InsertAttempt(rows: seq<UserRow>, nextId: nat, input: NewUser, hasher: Hasher, now: Timestamp): Result<UserRow, Error> {
    if FindByEmail(rows, input.email).Some? then Err(Error(AlreadyExistsMessage))
    else match hasher.hash(input.password)
      case None => Err(Error(HashFailedMessage))
      case Some(passwordHash) =>
        var role := if input.role.Some? then input.role.value else UserRole;
        var row := UserRow(nextId, input.name, input.email, passwordHash, role, now, now);
        if FitsColumns(row) then Ok(row) else Err(Error(ValueTooLongMessage))
  }

  /** The state after `createUser` and what it returns or throws. */
  datatype Created = Created(result: Result<PublicUser, Error>, rows: seq<UserRow>, nextId: nat)

  /** `createUser`: the `catch` block replaces whatever was thrown. */
  function CreateUserSpec(rows: seq<UserRow>, nextId: nat, input: NewUser, hasher: Hasher, now: Timestamp): (c: Created)
    // a duplicate email fails and leaves the table alone
    ensures EmailTaken(rows, input.email) ==> c == Created(Err(Error(CreateFailedMessage)), rows, nextId)
    // a hashing failure inserts nothing
    ensures hasher.hash(input.password).None? ==> c == Created(Err(Error(CreateFailedMessage)), rows, nextId)
    // every failure has the one message, whatever its cause
    ensures c.result.Err? ==> c == Created(Err(Error(CreateFailedMessage)), rows, nextId)
    ensures c.result.Ok? <==> (
      && !EmailTaken(rows, input.email) && hasher.hash(input.password).Some?
      && |input.name| <= ColumnLength && |input.email| <= ColumnLength
      && |hasher.hash(input.password).value| <= ColumnLength
      && (input.role.Some? ==> |input.role.value| <= ColumnLength))
    // a success appends exactly one row, with the hash, the default role and the next id
    ensures c.result.Ok? ==> (
      && |c.rows| == |rows| + 1 && c.rows[..|rows|] == rows && c.nextId == nextId + 1
      && var row := c.rows[|rows|];
      && row.id == nextId && row.name == input.name && row.email == input.email
      && row.password == hasher.hash(input.password).value
      && row.role == (if input.role.None? then "user" else input.role.value)
      && row.createdAt == now && row.updatedAt == now
      && c.result.value == PublicUser(row.id, row.name, row.email, row.role, row.createdAt))
  {
    match InsertAttempt(rows, nextId, input, hasher, now)
    case Err(_) => Created(Err(Error(CreateFailedMessage)), rows, nextId)
    case Ok(row) => Created(Ok(Project(row)), rows + [row], nextId + 1)
  }

  /** The cause "User already exists" is thrown, and then lost. */
  lemma DuplicateCauseDiscarded(rows: seq<UserRow>, nextId: nat, input: NewUser, hasher: Hasher, now: Timestamp)
    requires EmailTaken(rows, input.email)
    ensures InsertAttempt(rows, nextId, input, hasher, now) == Err(Error(AlreadyExistsMessage))
    ensures CreateUserSpec(rows, nextId, input, hasher, now).result == Err(Error(CreateFailedMessage))
  {
  }

  /** `createUser` keeps the table's invariant. */
  lemma CreatePreservesValid(rows: seq<UserRow>, nextId: nat, input: NewUser, hasher: Hasher, now: Timestamp)
    requires TableValid(rows, nextId)
    ensures var c := CreateUserSpec(rows, nextId, input, hasher, now); TableValid(c.rows, c.nextId)
  {
  }

  /** The `users` table, as `createUser` changes it. */
  class UserTable {
    var rows: seq<UserRow>
    var nextId: nat

    ghost predicate Valid()
      reads this
    {
      TableValid(rows, nextId)
    }

    constructor ()
      ensures Valid() && rows == [] && nextId == 1
    {
      rows := [];
      nextId := 1;
    }

    /** `createUser`: look the email up, hash, insert, return the row without
        its password; any failure becomes 'Error creating user'. */
    method CreateUser(input: NewUser, hasher: Hasher, now: Timestamp) returns (r: Result<PublicUser, Error>)
      requires Valid()
      modifies this
      ensures Valid()
      ensures var c := CreateUserSpec(old(rows), old(nextId), input, hasher, now);
        r == c.result && rows == c.rows && nextId == c.nextId
    {
      CreatePreservesValid(rows, nextId, input, hasher, now);
      var thrown: Option<Error> := None;
      if FindByEmail(rows, input.email).Some? {
        thrown := Some(Error(AlreadyExistsMessage));
      } else {
        var passwordHash := hasher.hash(input.password);
        if passwordHash.None? {
          thrown := Some(Error(HashFailedMessage));
        } else {
          var role := if input.role.Some? then input.role.value else UserRole;
          var newUser := UserRow(nextId, input.name, input.email, passwordHash.value, role, now, now);
          if !FitsColumns(newUser) {
            thrown := Some(Error(ValueTooLongMessage));
          } else {
            rows := rows + [newUser];
            nextId := nextId + 1;
            r := Ok(Project(newUser));
          }
        }
      }
      if thrown.Some? {
        r := Err(Error(CreateFailedMessage));
      }
    }
  }

  // ---------------------------------------------------------------------------
  // authenticateUser
  // ---------------------------------------------------------------------------

  /** `authenticateUser` over the table's rows; it changes nothing and
      rethrows its own errors unchanged. */
  function AuthenticateUser(rows: seq<UserRow>, email: string, password: string, hasher: Hasher): (r: Result<PublicUser, Error>)
    ensures r == Err(Error(NotFoundMessage)) <==> !EmailTaken(rows, email)
    ensures r.Err? ==> r.error.message in {NotFoundMessage, InvalidPasswordMessage, CompareFailedMessage}
    ensures r.Ok? ==> exists i :: (
      && 0 <= i < |rows| && rows[i].email == email
      && hasher.compare(password, rows[i].password) == Some(true)
      && r.value == PublicUser(rows[i].id, rows[i].name, rows[i].email, rows[i].role, rows[i].createdAt))
    ensures r == Err(Error(InvalidPasswordMessage)) ==>
      exists i :: 0 <= i < |rows| && rows[i].email == email && hasher.compare(password, rows[i].password) == Some(false)
    // for a known email, the outcome is the compare against the row the query finds
    ensures EmailTaken(rows, email) ==>
      var row := rows[FindByEmail(rows, email).value];
      && (r.Ok? <==> hasher.compare(password, row.password) == Some(true))
      && (r == Err(Error(InvalidPasswordMessage)) <==> hasher.compare(password, row.password) == Some(false))
      && (r == Err(Error(CompareFailedMessage)) <==> hasher.compare(password, row.password).None?)
      && (r.Ok? ==> r.value == Project(row))
  {
    match FindByEmail(rows, email)
    case None => Err(Error(NotFoundMessage))
    case Some(i) =>
      match hasher.compare(password, rows[i].password)
      case None => Err(Error(CompareFailedMessage))
      case Some(false) => Err(Error(InvalidPasswordMessage))
      case Some(true) => Ok(Project(rows[i]))
  }

  /** The lookup compares emails exactly: a differently cased address is a
      different user. */
  lemma EmailLookupIsExact(row: UserRow, password: string, hasher: Hasher)
    requires row.email == "Ann@x.com"
    ensures AuthenticateUser([row], "ann@x.com", password, hasher) == Err(Error(NotFoundMessage))
  {
  }

  /** In a valid table a known email names exactly one row, so signing in
      checks the password against that row's hash whichever row it is. */
  lemma SignInChecksTheOnlyRow(rows: seq<UserRow>, nextId: nat, i: nat, password: string, hasher: Hasher)
    requires TableValid(rows, nextId) && i < |rows|
    ensures var r := AuthenticateUser(rows, rows[i].email, password, hasher);
      && (r.Ok? <==> hasher.compare(password, rows[i].password) == Some(true))
      && (r.Ok? ==> r.value == Project(rows[i]))
      && (r == Err(Error(InvalidPasswordMessage)) <==> hasher.compare(password, rows[i].password) == Some(false))
      && (r == Err(Error(CompareFailedMessage)) <==> hasher.compare(password, rows[i].password).None?)
  {
    var found := FindByEmail(rows, rows[i].email);
    assert found.Some? && rows[found.value].email == rows[i].email;
    assert found.value == i;
  }

  /** Signing up and then signing in with the same email and password returns
      the record sign-up returned. */
  lemma SignUpThenSignIn(rows: seq<UserRow>, nextId: nat, input: NewUser, hasher: Hasher, now: Timestamp)
    requires Sound(hasher)
    requires CreateUserSpec(rows, nextId, input, hasher, now).result.Ok?
    ensures var c := CreateUserSpec(rows, nextId, input, hasher, now);
      AuthenticateUser(c.rows, input.email, input.password, hasher) == c.result
  {
  }
}
