/** Values shared by the validators, the middleware, the services and the
    controllers of the user backend. */
module Common {

  datatype Option<+T> = None | Some(value: T)

  /** The outcome of an operation that can throw: a value or the thrown error. */
  datatype Result<+T, +E> = Ok(value: T) | Err(error: E)

  /** A JavaScript `Error`: handlers tell errors apart only by their message. */
  datatype Error = Error(message: string)

  /** The claims a session token carries and `req.user` holds once verified. */
  datatype Claims = Claims(id: nat, email: string, role: string)

  const UserRole: string := "user"
  const AdminRole: string := "admin"

  /** The kind of a validation issue, in the schema library's terms. */
  datatype IssueCode =
    | InvalidType
    | TooSmall(minimum: nat)
    | TooBig(maximum: nat)
    | InvalidEmail
    | InvalidPattern(message: string)
    | InvalidEnumValue
    | Custom(message: string)

  /** One validation issue: the field it is about ("" for the whole input). */
  datatype Issue = Issue(path: string, code: IssueCode)

  /** A JSON value as the body parser hands it over; only strings matter here. */
  datatype Json = JString(s: string) | JNonString

  /** Timestamps are opaque server-assigned values. */
  type Timestamp = nat
}
