/** The authentication gate, which turns the `token` cookie into `req.user`,
    and the role gate, which admits a request by the principal's role.

    Token verification is a partial function: `verify(token)` gives the
    decoded claims, or None where the token utility throws (bad signature,
    malformed, expired). */
module AuthMiddleware {
  import opened Common

  const NoTokenMessage: string := "No token provided"
  const InvalidTokenMessage: string := "Invalid or expired token"
  const AuthRequiredMessage: string := "Authentication required"
  const DeniedPrefix: string := "Access denied. Required roles: "

  /** A middleware either calls `next()` once and sends nothing, or sends an
      error response and does not call `next`. */
  datatype Gate = Pass | Reject(status: nat, error: string, message: string)

  /** The value of the `token` cookie, or "" when there is none: both are falsy. */
  function TokenOf(cookies: map<string, string>): string {
    if "token" in cookies then cookies["token"] else ""
  }

  /** What `authenticate` decides: the claims to attach, or the 401 message. */
  function Authentication(cookies: map<string, string>, verify: string -> Option<Claims>): (r: Result<Claims, string>)
    ensures r == Err(NoTokenMessage) <==> "token" !in cookies || cookies["token"] == ""
    ensures r == Err(InvalidTokenMessage) <==> "token" in cookies && cookies["token"] != "" && verify(cookies["token"]).None?
    ensures r.Ok? <==> "token" in cookies && cookies["token"] != "" && verify(cookies["token"]).Some?
    ensures r.Ok? ==> verify(cookies["token"]) == Some(r.value)
  {
    var token := TokenOf(cookies);
    if token == "" then Err(NoTokenMessage)
    else match verify(token)
      case None => Err(InvalidTokenMessage)
      case Some(decoded) => Ok(decoded)
  }

  /** The parts of a request the middleware reads and writes. */
  class Request {
    const cookies: map<string, string>
    var user: Option<Claims>

    constructor (cookies: map<string, string>)
      ensures this.cookies == cookies && user.None?
    {
      this.cookies := cookies;
      user := None;
    }
  }

  /** `authenticate`: on a verified token, `req.user` becomes its claims and
      `next` is called; otherwise 401 and `req.user` is left as it was. */
  method Authenticate(req: Request, verify: string -> Option<Claims>) returns (g: Gate)
    modifies req
    ensures var a := Authentication(req.cookies, verify);
      && (a.Ok? ==> g == Pass && req.user == Some(a.value))
      && (a.Err? ==> g == Reject(401, "Unauthorized", a.error) && req.user == old(req.user))
  {
    var token := TokenOf(req.cookies);
    if token == "" {
      return Reject(401, "Unauthorized", NoTokenMessage);
    }
    var decoded := verify(token);
    if decoded.None? {
      return Reject(401, "Unauthorized", InvalidTokenMessage);
    }
    req.user := decoded;
    g := Pass;
  }

  /** `requireRole` accepts one role or an array of roles. */
  datatype AllowedRoles = OneRole(role: string) | RoleList(roles: seq<string>)

  function Roles(allowed: AllowedRoles): seq<string> {
    match allowed
    case OneRole(r) => [r]
    case RoleList(rs) => rs
  }

  /** `Array.prototype.join(sep)`. */
  function Join(items: seq<string>, sep: string): (r: string)
    ensures |items| == 1 ==> r == items[0]
    ensures |items| == 0 ==> r == ""
  {
    if |items| == 0 then "" else if |items| == 1 then items[0] else items[0] + sep + Join(items[1..], sep)
  }

  function RequireRole(allowed: AllowedRoles, user: Option<Claims>): (g: Gate)
    ensures user.None? ==> g == Reject(401, "Unauthorized", AuthRequiredMessage)
    ensures user.Some? ==> (g == Pass <==> exists i :: 0 <= i < |Roles(allowed)| && Roles(allowed)[i] == user.value.role)
    ensures user.Some? && g != Pass ==> g == Reject(403, "Forbidden", DeniedPrefix + Join(Roles(allowed), ", "))
  {
    match user
    case None => Reject(401, "Unauthorized", AuthRequiredMessage)
    case Some(u) =>
      var roles := Roles(allowed);
      if u.role !in roles then Reject(403, "Forbidden", DeniedPrefix + Join(roles, ", ")) else Pass
  }

  /** A single role behaves exactly like the one-element list holding it. */
  lemma SingleRoleIsOneElementList(role: string, user: Option<Claims>)
    ensures RequireRole(OneRole(role), user) == RequireRole(RoleList([role]), user)
  {
  }

  /** An empty role list forbids every authenticated request. */
  lemma EmptyRoleListForbids(user: Claims)
    ensures RequireRole(RoleList([]), Some(user)) == Reject(403, "Forbidden", DeniedPrefix)
  {
  }

  /** The 403 message names the roles in order, separated by ", ". */
  lemma {:induction false} JoinListsRoles(roles: seq<string>)
    requires |roles| >= 1
    ensures Join(roles, ", ") == roles[0] + JoinTail(roles[1..])
    decreases |roles|
  {
    if |roles| > 1 {
      JoinListsRoles(roles[1..]);
      assert roles[1..][1..] == roles[2..];
    }
  }

  /** Every remaining role preceded by the separator. */
  function JoinTail(rest: seq<string>): string {
    if rest == [] then "" else ", " + rest[0] + JoinTail(rest[1..])
  }

  /** A route guarded by `authenticate` and then `requireRole(allowed)`: the
      role gate sees `req.user` only as `authenticate` left it. */
  function Guarded(cookies: map<string, string>, verify: string -> Option<Claims>, allowed: AllowedRoles): Gate {
    match Authentication(cookies, verify)
    case Err(message) => Reject(401, "Unauthorized", message)
    case Ok(claims) => RequireRole(allowed, Some(claims))
  }

  /** Behind `authenticate`, 401 comes only from a missing or failed token and
      never from the role gate; a request passes iff its verified role is
      allowed, and is otherwise refused with 403. */
  lemma AuthenticatedNeverUnauthorised(cookies: map<string, string>, verify: string -> Option<Claims>, allowed: AllowedRoles)
    ensures var g := Guarded(cookies, verify, allowed);
      var a := Authentication(cookies, verify);
      && (g.Reject? && g.status == 401 <==> a.Err?)
      && (g == Pass <==> a.Ok? && a.value.role in Roles(allowed))
      && (a.Ok? && g != Pass ==> g == Reject(403, "Forbidden", DeniedPrefix + Join(Roles(allowed), ", ")))
  {
  }
}
