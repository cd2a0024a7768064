/** The request schemas of the users resource: the path-id parser and the
    partial-update payload rules. */
module UsersValidation {
  import opened Common

  // ---------------------------------------------------------------------------
  // Path id: a string of ASCII digits, read as a decimal number
  // ---------------------------------------------------------------------------

  const IdMessage: string := "ID must be a valid number"

  /** The `\d` class of a regular expression without the Unicode flag. */
  predicate IsDigit(c: char) {
    '0' <= c <= '9'
  }

  predicate AllDigits(s: string) {
    forall i :: 0 <= i < |s| ==> IsDigit(s[i])
  }

  function DigitValue(c: char): (d: nat)
    requires IsDigit(c)
    ensures d < 10
  {
    c as int - '0' as int
  }

  function DigitChar(d: nat): (c: char)
    requires d < 10
    ensures IsDigit(c) && DigitValue(c) == d
  {
    ('0' as int + d) as char
  }

  /** The value `Number(s)` gives a digit string, read from its last digit. */
  function DecimalValue(s: string): nat
    requires AllDigits(s)
    decreases |s|
  {
    if s == [] then 0 else DecimalValue(s[..|s| - 1]) * 10 + DigitValue(s[|s| - 1])
  }

  /** `userIdSchema`: the id must match `^\d+$` and is then converted to a number. */
  function ParseUserId(raw: string): (r: Result<nat, seq<Issue>>)
    ensures r.Ok? <==> |raw| > 0 && AllDigits(raw)
    ensures r.Ok? ==> r.value == DecimalValue(raw)
    ensures r.Err? ==> r.error == [Issue("id", InvalidPattern(IdMessage))]
  {
    if |raw| > 0 && AllDigits(raw) then Ok(DecimalValue(raw))
    else Err([Issue("id", InvalidPattern(IdMessage))])
  }

  /** The shortest decimal spelling of a natural number: the partner of ParseUserId. */
  function ToDecimal(n: nat): (s: string)
    ensures |s| > 0 && AllDigits(s)
    decreases n
  {
    if n < 10 then [DigitChar(n)] else ToDecimal(n / 10) + [DigitChar(n % 10)]
  }

  /** A digit string with its leading zeros removed, keeping at least one digit. */
  function StripLeadingZeros(s: string): (r: string)
    ensures |r| <= |s| && (|s| > 0 ==> |r| > 0)
    decreases |s|
  {
    if |s| > 1 && s[0] == '0' then StripLeadingZeros(s[1..]) else s
  }

  predicate AllZeros(s: string) {
    forall i :: 0 <= i < |s| ==> s[i] == '0'
  }

  /** Printing a number and parsing it back gives the number. */
  lemma {:induction false} ParsePrinted(n: nat)
    ensures ParseUserId(ToDecimal(n)) == Ok(n)
    decreases n
  {
    var s := ToDecimal(n);
    var p, c := s[..|s| - 1], s[|s| - 1];
    if n < 10 {
      assert p == [];
    } else {
      ParsePrinted(n / 10);
      assert p == ToDecimal(n / 10);
      assert DigitValue(c) == n % 10;
    }
    assert DecimalValue(s) == DecimalValue(p) * 10 + DigitValue(c);
  }

  lemma {:induction false} DecimalValueOfZeros(s: string)
    requires AllZeros(s)
    ensures AllDigits(s) && DecimalValue(s) == 0
    decreases |s|
  {
    if s != [] {
      DecimalValueOfZeros(s[..|s| - 1]);
    }
  }

  lemma {:induction false} DecimalValueZeroOnlyForZeros(s: string)
    requires AllDigits(s) && DecimalValue(s) == 0
    ensures AllZeros(s)
    decreases |s|
  {
    if s != [] {
      DecimalValueZeroOnlyForZeros(s[..|s| - 1]);
      assert s == s[..|s| - 1] + [s[|s| - 1]];
    }
  }

  lemma {:induction false} StripAppend(p: string, c: char)
    requires AllDigits(p)
    ensures AllZeros(p) ==> StripLeadingZeros(p + [c]) == [c]
    ensures !AllZeros(p) ==> |p| > 0 && StripLeadingZeros(p + [c]) == StripLeadingZeros(p) + [c]
    decreases |p|
  {
    if |p| > 0 {
      assert (p + [c])[1..] == p[1..] + [c];
      if p[0] == '0' {
        StripAppend(p[1..], c);
        if !AllZeros(p) {
          assert !AllZeros(p[1..]) by {
            var i :| 0 <= i < |p| && p[i] != '0';
            assert p[1..][i - 1] != '0';
          }
        }
      } else {
        assert p[0] != '0';
      }
    }
  }

  /** Parsing a digit string and printing the number gives the string without
      its leading zeros: the only information the parser discards. */
  lemma {:induction false} PrintParsed(raw: string)
    requires ParseUserId(raw).Ok?
    ensures ToDecimal(ParseUserId(raw).value) == StripLeadingZeros(raw)
    decreases |raw|
  {
    var p, c := raw[..|raw| - 1], raw[|raw| - 1];
    assert raw == p + [c];
    var v := DecimalValue(p);
    StripAppend(p, c);
    if v == 0 {
      DecimalValueZeroOnlyForZeros(p);
    } else {
      if AllZeros(p) {
        DecimalValueOfZeros(p);
      }
      PrintParsed(p);
      var n := v * 10 + DigitValue(c);
      assert n / 10 == v && n % 10 == DigitValue(c);
      assert DigitChar(DigitValue(c)) == c;
    }
  }

  /** A leading zero does not change the id: "007" and "7" name the same user. */
  lemma {:induction false} LeadingZeroIgnored(s: string)
    requires AllDigits(s)
    ensures ParseUserId("0" + s) == (if s == [] then Ok(0) else ParseUserId(s))
    decreases |s|
  {
    var t := "0" + s;
    assert AllDigits(t);
    if s == [] {
      assert t[..0] == [] && t[0] == '0';
      assert DecimalValue(t) == DecimalValue(t[..0]) * 10 + DigitValue(t[0]);
    } else {
      var p := s[..|s| - 1];
      LeadingZeroIgnored(p);
      assert t[..|t| - 1] == "0" + p;
      assert t[|t| - 1] == s[|s| - 1];
      assert DecimalValue("0" + p) == DecimalValue(p) by {
        if p == [] {
          assert ("0" + p)[..0] == [];
        }
      }
    }
  }

  /** The examples the id parser is documented by. */
  lemma ParseUserIdExamples()
    ensures ParseUserId("42") == Ok(42)
    ensures ParseUserId("007") == Ok(7)
    ensures ParseUserId("").Err?
    ensures ParseUserId("12a").Err?
    ensures ParseUserId("-5").Err?
    ensures ParseUserId("4.2").Err?
  {
    assert "42"[..1] == "4" && "4"[..0] == [];
    assert DecimalValue("4") == 4;
    assert "007"[..2] == "00" && "00"[..1] == "0" && "0"[..0] == [];
    assert DecimalValue("00") == 0;
    assert !IsDigit("12a"[2]);
    assert !IsDigit("-5"[0]);
    assert !IsDigit("4.2"[1]);
  }

  // ---------------------------------------------------------------------------
  // String transforms applied by the update schema
  // ---------------------------------------------------------------------------

  /** The characters `String.prototype.trim` removes: white space and line terminators. */
  predicate IsJsWhitespace(c: char) {
    || c == '\t' || c == '\n' || c == '\U{000B}' || c == '\U{000C}' || c == '\r'
    || c == ' ' || c == '\U{00A0}' || c == '\U{1680}' || '\U{2000}' <= c <= '\U{200A}'
    || c == '\U{2028}' || c == '\U{2029}' || c == '\U{202F}' || c == '\U{205F}'
    || c == '\U{3000}' || c == '\U{FEFF}'
  }

  function TrimStart(s: string): (r: string)
    ensures |r| <= |s| && r == s[|s| - |r|..]
    ensures forall i :: 0 <= i < |s| - |r| ==> IsJsWhitespace(s[i])
    ensures r == [] || !IsJsWhitespace(r[0])
    decreases |s|
  {
    if |s| > 0 && IsJsWhitespace(s[0]) then TrimStart(s[1..]) else s
  }

  function TrimEnd(s: string): (r: string)
    ensures |r| <= |s| && r == s[..|r|]
    ensures forall i :: |r| <= i < |s| ==> IsJsWhitespace(s[i])
    ensures r == [] || !IsJsWhitespace(r[|r| - 1])
    decreases |s|
  {
    if |s| > 0 && IsJsWhitespace(s[|s| - 1]) then TrimEnd(s[..|s| - 1]) else s
  }

  /** `trim()`: the longest middle slice that neither starts nor ends with white space. */
  function Trim(s: string): (r: string)
    ensures exists i, j ::
      && 0 <= i <= j <= |s| && r == s[i..j]
      && (forall k :: 0 <= k < i ==> IsJsWhitespace(s[k]))
      && (forall k :: j <= k < |s| ==> IsJsWhitespace(s[k]))
    ensures r == [] || (!IsJsWhitespace(r[0]) && !IsJsWhitespace(r[|r| - 1]))
  {
    var t := TrimStart(s);
    var r := TrimEnd(t);
    var i := |s| - |t|;
    assert r == s[i..i + |r|];
    r
  }

  /** `toLowerCase()` on ASCII letters; other characters are kept. */
  function LowerChar(c: char): char {
    if 'A' <= c <= 'Z' then (c as int - 'A' as int + 'a' as int) as char else c
  }

  function ToLowerCase(s: string): (r: string)
    ensures |r| == |s|
    // no upper-case ASCII letter is left
    ensures forall i :: 0 <= i < |r| ==> !('A' <= r[i] <= 'Z')
    // an upper-case letter becomes the letter 32 code points above it
    ensures forall i :: 0 <= i < |s| && 'A' <= s[i] <= 'Z' ==> r[i] as int == s[i] as int + 32
    // every other character is kept
    ensures forall i :: 0 <= i < |s| && !('A' <= s[i] <= 'Z') ==> r[i] == s[i]
  {
    seq(|s|, i requires 0 <= i < |s| => LowerChar(s[i]))
  }

  /** Lowering twice is lowering once. */
  lemma ToLowerCaseIdempotent(s: string)
    ensures ToLowerCase(ToLowerCase(s)) == ToLowerCase(s)
  {
    var t := ToLowerCase(s);
    assert forall i :: 0 <= i < |t| ==> ToLowerCase(t)[i] == t[i];
  }

  // ---------------------------------------------------------------------------
  // Partial-update payload
  // ---------------------------------------------------------------------------

  const NoFieldsMessage: string := "At least one field must be provided for update"

  /** The request body: an object with the four known keys (others are
      stripped by the schema), or something that is not an object at all. */
  datatype UpdateBody =
    | UpdateObject(name: Option<Json>, email: Option<Json>, password: Option<Json>, role: Option<Json>)
    | NotAnObject

  /** The parsed update: only the keys the body supplied are present. */
  datatype UserUpdate = UserUpdate(name: Option<string>, email: Option<string>, password: Option<string>, role: Option<string>)

  predicate HasSomeField(u: UserUpdate) {
    u.name.Some? || u.email.Some? || u.password.Some? || u.role.Some?
  }

  function CheckName(v: Option<Json>): Result<Option<string>, seq<Issue>> {
    match v
    case None => Ok(None)
    case Some(JNonString) => Err([Issue("name", InvalidType)])
    case Some(JString(s)) =>
      if |s| < 2 then Err([Issue("name", TooSmall(2))])
      else if |s| > 255 then Err([Issue("name", TooBig(255))])
      else Ok(Some(Trim(s)))
  }

  /** The address syntax is checked on the raw string, before lowering and trimming. */
  function CheckEmail(v: Option<Json>, isEmail: string -> bool): Result<Option<string>, seq<Issue>> {
    match v
    case None => Ok(None)
    case Some(JNonString) => Err([Issue("email", InvalidType)])
    case Some(JString(s)) =>
      var issues := (if isEmail(s) then [] else [Issue("email", InvalidEmail)])
        + (if |s| > 255 then [Issue("email", TooBig(255))] else []);
      if issues == [] then Ok(Some(Trim(ToLowerCase(s)))) else Err(issues)
  }

  function CheckPassword(v: Option<Json>): Result<Option<string>, seq<Issue>> {
    match v
    case None => Ok(None)
    case Some(JNonString) => Err([Issue("password", InvalidType)])
    case Some(JString(s)) =>
      if |s| < 6 then Err([Issue("password", TooSmall(6))])
      else if |s| > 128 then Err([Issue("password", TooBig(128))])
      else Ok(Some(s))
  }

  function CheckRole(v: Option<Json>): Result<Option<string>, seq<Issue>> {
    match v
    case None => Ok(None)
    case Some(JNonString) => Err([Issue("role", InvalidType)])
    case Some(JString(s)) =>
      if s == UserRole || s == AdminRole then Ok(Some(s)) else Err([Issue("role", InvalidEnumValue)])
  }

  function IssuesOf(r: Result<Option<string>, seq<Issue>>): seq<Issue> {
    if r.Err? then r.error else []
  }

  // What the schema accepts for each key, stated independently of the checks above.

  predicate NameAccepted(v: Option<Json>) {
    v.None? || (v.value.JString? && 2 <= |v.value.s| <= 255)
  }

  predicate EmailAccepted(v: Option<Json>, isEmail: string -> bool) {
    v.None? || (v.value.JString? && isEmail(v.value.s) && |v.value.s| <= 255)
  }

  predicate PasswordAccepted(v: Option<Json>) {
    v.None? || (v.value.JString? && 6 <= |v.value.s| <= 128)
  }

  predicate RoleAccepted(v: Option<Json>) {
    v.None? || (v.value.JString? && (v.value.s == "user" || v.value.s == "admin"))
  }

  /** `updateUserSchema.safeParse(body)`. */
  function ValidateUpdate(body: UpdateBody, isEmail: string -> bool): (r: Result<UserUpdate, seq<Issue>>)
    // accepted iff an object whose present keys all pass and that has at least one key
    ensures r.Ok? <==> (
      && body.UpdateObject?
      && (body.name.Some? || body.email.Some? || body.password.Some? || body.role.Some?)
      && NameAccepted(body.name) && EmailAccepted(body.email, isEmail)
      && PasswordAccepted(body.password) && RoleAccepted(body.role))
    // a key is in the result exactly when the body supplied it
    ensures r.Ok? ==> (
      && HasSomeField(r.value)
      && (r.value.name.Some? <==> body.name.Some?) && (r.value.email.Some? <==> body.email.Some?)
      && (r.value.password.Some? <==> body.password.Some?) && (r.value.role.Some? <==> body.role.Some?))
    // name trimmed; email lowered then trimmed; password and role kept verbatim
    ensures r.Ok? && body.name.Some? ==> r.value.name.value == Trim(body.name.value.s)
    ensures r.Ok? && body.email.Some? ==> r.value.email.value == Trim(ToLowerCase(body.email.value.s))
    ensures r.Ok? && body.password.Some? ==> r.value.password.value == body.password.value.s
    ensures r.Ok? && body.role.Some? ==> r.value.role.value in {"user", "admin"} && r.value.role.value == body.role.value.s
    // the empty object fails with the refinement's message and nothing else
    ensures body == UpdateObject(None, None, None, None) ==> r == Err([Issue("", Custom(NoFieldsMessage))])
    ensures r.Err? ==> |r.error| > 0
  {
    match body
    case NotAnObject => Err([Issue("", InvalidType)])
    case UpdateObject(name, email, password, role) =>
      var n, e, p, ro := CheckName(name), CheckEmail(email, isEmail), CheckPassword(password), CheckRole(role);
      var issues := IssuesOf(n) + IssuesOf(e) + IssuesOf(p) + IssuesOf(ro);
      if issues != [] then Err(issues)
      else
        var update := UserUpdate(n.value, e.value, p.value, ro.value);
        if !HasSomeField(update) then Err([Issue("", Custom(NoFieldsMessage))])
        else Ok(update)
  }

  /** The length bounds apply before trimming, so a name of blanks passes and
      becomes empty. */
  lemma BlankNameBecomesEmpty(isEmail: string -> bool)
    ensures ValidateUpdate(UpdateObject(Some(JString("   ")), None, None, None), isEmail)
      == Ok(UserUpdate(Some(""), None, None, None))
  {
  }
}
