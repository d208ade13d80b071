/**
 * Request authentication and authorisation: the bearer-token check that fills the
 * request's locals, the role gate, and the helpers that read the stored user ID
 * back in either of the two forms it may have been stored in.
 */
module AuthMiddleware {

  import opened Wrappers
  import opened Text
  import opened ObjectIds

  datatype Role = Student | Alumni | Faculty | Admin

  /** What a valid access token carries. */
  datatype Claims = Claims(userId: ObjectId, email: string, role: Role)

  /**
   * A value stored in the request's locals under "userID": absent, a string, an
   * ObjectID, or a value of some other type.
   */
  datatype LocalValue = Absent | Str(s: string) | Oid(id: ObjectId) | OtherType

  /** The locals a successful authentication stores for later handlers. */
  datatype Locals = Locals(userId: LocalValue, email: string, role: Role)

  datatype AuthResult = Unauthorized(message: string) | Authenticated(locals: Locals)

  const BearerPrefix: string := "Bearer "

  /**
   * The token handed to validation: the header with its first occurrence of
   * "Bearer " removed, wherever it occurs, or the header unchanged without one.
   */
  function StripBearer(header: string): (r: string)
    ensures IndexOf(header, BearerPrefix).None? ==> r == header
    ensures IndexOf(header, BearerPrefix).Some? ==>
              var k := IndexOf(header, BearerPrefix).value;
              |r| == |header| - 7 && r == header[..k] + header[k + 7..]
  {
    match IndexOf(header, BearerPrefix)
    case None => header
    case Some(k) => header[..k] + header[k + 7..]
  }

  /** The header a client builds from its token is stripped back to that token. */
  lemma {:induction false} StripBearerRoundTrip(token: string)
    ensures StripBearer(BearerPrefix + token) == token
  {
    var h := BearerPrefix + token;
    assert h[..|BearerPrefix|] == BearerPrefix;
    IndexOfAtStart(h, BearerPrefix);
    assert h[..0] + h[|BearerPrefix|..] == token;
  }

  /** A second prefix after the first is passed on to validation. */
  lemma {:induction false} StripBearerOnlyFirst(token: string)
    ensures StripBearer(BearerPrefix + BearerPrefix + token) == BearerPrefix + token
  {
    StripBearerRoundTrip(BearerPrefix + token);
    ConcatAssoc(BearerPrefix, BearerPrefix, token);
  }

  /**
   * The Authorization check.  An empty header is refused before any validation;
   * otherwise the stripped token is validated by the `validate` oracle, and on
   * success the user's ID (as an ObjectID), e-mail and role are stored.
   */
  function AuthRequired(header: string, validate: string -> Option<Claims>): (r: AuthResult)
    ensures header == "" ==> r == Unauthorized("Authorization header required")
    ensures header != "" && validate(StripBearer(header)).None? ==> r == Unauthorized("Invalid or expired token")
    ensures r.Authenticated? <==> header != "" && validate(StripBearer(header)).Some?
    ensures r.Authenticated? ==>
              var c := validate(StripBearer(header)).value;
              r.locals == Locals(Oid(c.userId), c.email, c.role)
  {
    if header == "" then Unauthorized("Authorization header required")
    else
      match validate(StripBearer(header))
      case None => Unauthorized("Invalid or expired token")
      case Some(c) => Authenticated(Locals(Oid(c.userId), c.email, c.role))
  }

  /** The empty header is refused whatever the validator would have said. */
  lemma {:induction false} EmptyHeaderNeverValidated(v1: string -> Option<Claims>, v2: string -> Option<Claims>)
    ensures AuthRequired("", v1) == AuthRequired("", v2)
    ensures AuthRequired("", v1).Unauthorized?
  {
  }

  /** The search over the listed roles: true iff the caller's role is one of them. */
  function RoleAllows(userRole: Role, roles: seq<Role>): (r: bool)
    ensures r <==> userRole in roles
  {
    if roles == [] then false
    else if roles[0] == userRole then true
    else RoleAllows(userRole, roles[1..])
  }

  datatype Gate = Next | Forbidden(status: int, message: string)

  /** Passes the request on when the caller's role is listed, otherwise answers 403. */
  function RoleRequired(userRole: Role, roles: seq<Role>): (r: Gate)
    ensures r.Next? <==> userRole in roles
    ensures r.Forbidden? ==> r.status == 403 && r.message == "Insufficient permissions"
    ensures roles == [] ==> r.Forbidden?
  {
    if RoleAllows(userRole, roles) then Next else Forbidden(403, "Insufficient permissions")
  }

  /** The stored user ID as an ObjectID: parsed from a string, NilObjectID when that fails or the type is wrong. */
  function GetUserID(v: LocalValue): (r: ObjectId)
    ensures v.Oid? ==> r == v.id
    ensures v.Str? && FromHex(v.s).Some? ==> r == FromHex(v.s).value
    ensures (v.Str? && FromHex(v.s).None?) || v.Absent? || v.OtherType? ==> r == NilId
  {
    match v
    case Oid(id) => id
    case Str(s) => if FromHex(s).Some? then FromHex(s).value else NilId
    case _ => NilId
  }

  /** The stored user ID as a string: the hex of an ObjectID, a string as it is, "" otherwise. */
  function GetUserIDAsString(v: LocalValue): (r: string)
    ensures v.Oid? ==> r == Hex(v.id) && FromHex(r) == Some(v.id)
    ensures v.Str? ==> r == v.s
    ensures v.Absent? || v.OtherType? ==> r == ""
  {
    match v
    case Oid(id) => HexRoundTrip(id); Hex(id)
    case Str(s) => s
    case _ => ""
  }

  /**
   * Whichever form the ID was stored in, re-storing its string view gives back the
   * same ObjectID; and when no string view exists the ObjectID view is NilObjectID.
   */
  lemma {:induction false} UserIdViewsAgree(v: LocalValue)
    ensures GetUserID(Str(GetUserIDAsString(v))) == GetUserID(v)
  {
    match v
    case Oid(id) => HexRoundTrip(id);
    case Str(s) =>
    case _ => assert FromHex("").None?;
  }
}
