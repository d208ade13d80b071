/**
 * Account state behind the authentication handlers: the users, otp_verifications
 * and refresh_tokens collections, and the handlers that insert into them and flip
 * is_used, is_verified and is_revoked.  Time is in seconds.  Password hashing,
 * token generation and validation, SHA-256 and the random source are inputs; the
 * store steps that can fail are named by `Step`.
 */
module Accounts {

  import opened Wrappers
  import opened Tables
  import opened ObjectIds
  import AuthMiddleware
  import Validator
  import Otp

  datatype OtpPurpose = Registration | PasswordReset | EmailChange

  datatype User = User(
    id: ObjectId,
    name: string,
    email: string,
    passwordHash: string,
    role: AuthMiddleware.Role,
    company: string,
    position: string,
    location: string,
    experience: string,
    isVerified: bool,
    isActive: bool,
    createdAt: int,
    updatedAt: int)

  datatype OtpRecord = OtpRecord(
    id: ObjectId,
    email: string,
    code: string,
    purpose: OtpPurpose,
    expiresAt: int,
    isUsed: bool,
    createdAt: int)

  datatype RefreshRecord = RefreshRecord(
    id: ObjectId,
    userId: ObjectId,
    tokenHash: string,
    expiresAt: int,
    isRevoked: bool,
    createdAt: int)

  datatype RegisterRequest = RegisterRequest(
    name: string,
    email: string,
    password: string,
    role: AuthMiddleware.Role,
    company: string,
    position: string,
    location: string,
    experience: string)

  /** The body of `POST /auth/verify-otp`. */
  datatype OtpRequest = OtpRequest(email: string, code: string)

  /** The body of `POST /auth/forgot-password`. */
  datatype ForgotRequest = ForgotRequest(email: string)

  /** The body of `POST /auth/reset-password`. */
  datatype ResetRequest = ResetRequest(email: string, code: string, password: string)

  /** An access token and a refresh token, as the token generator returns them. */
  datatype TokenPair = TokenPair(access: string, refresh: string)

  /**
   * Store steps that can fail.  `LookupUser` is the read of sign-up's duplicate
   * check, whose failure the handler takes for "no such user"; the others are
   * writes whose failure the handlers report.
   */
  datatype Step =
    | LookupUser | InsertUser | InsertOtp | MarkOtpUsed | VerifyUser
    | UpdatePassword | RevokeUserTokens | RevokeToken | InsertToken

  /** OTPs live ten minutes. */
  const OtpLifetime: int := 10 * 60

  /** The code the test environment accepts without looking at the OTP store. */
  const TestCode: string := "123456"

  const WeakPassword := "Password must be at least 8 characters with uppercase, lowercase, number, and special character"
  const InvalidOtp := "Invalid or expired OTP"
  const ResetRequested := "If the email exists, a password reset OTP has been sent."
  const InvalidRefresh := "Invalid refresh token"
  const InvalidBody := "Invalid request body"
  const EmailInUse := "User with this email already exists"

  // ---------------------------------------------------------------------------
  // Filters, as the handlers pass them to FindOne

  function WithEmail(email: string): User -> bool
  {
    (u: User) => u.email == email
  }

  /**
   * Sign-up's duplicate check sees a user with the e-mail: only a lookup that
   * succeeds and finds one counts; a failed lookup is taken for "no such user".
   */
  predicate EmailTaken(users: seq<User>, email: string, fails: set<Step>)
  {
    LookupUser !in fails && FirstWhere(users, WithEmail(email)).Some?
  }

  predicate UniqueEmails(users: seq<User>)
  {
    forall i, j :: 0 <= i < j < |users| ==> users[i].email != users[j].email
  }

  /** A user whose e-mail no stored user has keeps the e-mails unique. */
  lemma FreshEmailKeepsUnique(users: seq<User>, u: User)
    requires UniqueEmails(users)
    requires FirstWhere(users, WithEmail(u.email)).None?
    ensures UniqueEmails(users + [u])
  {
    forall i | 0 <= i < |users|
      ensures users[i].email != u.email
    {
      assert !WithEmail(u.email)(users[i]);
    }
  }

  function ActiveWithEmail(email: string): User -> bool
  {
    (u: User) => u.email == email && u.isVerified && u.isActive
  }

  function ActiveWithId(id: ObjectId): User -> bool
  {
    (u: User) => u.id == id && u.isVerified && u.isActive
  }

  /**
   * An OTP that verifies `code` for `email` at `now`: unused and unexpired, and of
   * the required purpose when one is given.
   */
  predicate OtpMatches(o: OtpRecord, email: string, code: string, now: int, purpose: Option<OtpPurpose>)
  {
    o.email == email && o.code == code && !o.isUsed && o.expiresAt > now &&
    (purpose.Some? ==> o.purpose == purpose.value)
  }

  function OtpFilter(email: string, code: string, now: int, purpose: Option<OtpPurpose>): OtpRecord -> bool
  {
    (o: OtpRecord) => OtpMatches(o, email, code, now, purpose)
  }

  /** A stored refresh token that still admits a refresh at `now`. */
  predicate TokenLive(r: RefreshRecord, userId: ObjectId, tokenHash: string, now: int)
  {
    r.userId == userId && r.tokenHash == tokenHash && !r.isRevoked && r.expiresAt > now
  }

  function TokenFilter(userId: ObjectId, tokenHash: string, now: int): RefreshRecord -> bool
  {
    (r: RefreshRecord) => TokenLive(r, userId, tokenHash, now)
  }

  function WithHash(tokenHash: string): RefreshRecord -> bool
  {
    (r: RefreshRecord) => r.tokenHash == tokenHash
  }

  function Unrevoked(): RefreshRecord -> bool
  {
    (r: RefreshRecord) => !r.isRevoked
  }

  // ---------------------------------------------------------------------------
  // New documents and single-document updates

  function NewUser(req: RegisterRequest, passwordHash: string, id: ObjectId, now: int): (u: User)
    ensures !u.isVerified && u.isActive && u.email == req.email && u.id == id
    ensures u.name == Validator.SanitizeString(req.name)
  {
    User(id, Validator.SanitizeString(req.name), req.email, passwordHash, req.role,
         Validator.SanitizeString(req.company), Validator.SanitizeString(req.position),
         Validator.SanitizeString(req.location), Validator.SanitizeString(req.experience),
         false, true, now, now)
  }

  function NewOtp(id: ObjectId, email: string, code: string, purpose: OtpPurpose, now: int): OtpRecord
  {
    OtpRecord(id, email, code, purpose, now + OtpLifetime, false, now)
  }

  function Issue(id: ObjectId, userId: ObjectId, tokenHash: string, now: int, lifetime: int): RefreshRecord
  {
    RefreshRecord(id, userId, tokenHash, now + lifetime, false, now)
  }

  /** `is_used` set on OTP `k`; every other record, and every other field, as before. */
  function MarkUsed(otps: seq<OtpRecord>, k: nat): (r: seq<OtpRecord>)
    requires k < |otps|
    ensures |r| == |otps| && r[k].isUsed && r[k] == otps[k].(isUsed := r[k].isUsed)
    ensures forall i :: 0 <= i < |r| && i != k ==> r[i] == otps[i]
  {
    otps[k := otps[k].(isUsed := true)]
  }

  /** `is_verified` set and `updated_at` moved on user `k`; every other record as before. */
  function Verify(users: seq<User>, k: nat, now: int): (r: seq<User>)
    requires k < |users|
    ensures |r| == |users| && r[k].isVerified && r[k].updatedAt == now
    ensures r[k] == users[k].(isVerified := r[k].isVerified, updatedAt := r[k].updatedAt)
    ensures forall i :: 0 <= i < |r| && i != k ==> r[i] == users[i]
  {
    users[k := users[k].(isVerified := true, updatedAt := now)]
  }

  /** `is_revoked` set on token `k`; every other record, and every other field, as before. */
  function Revoke(tokens: seq<RefreshRecord>, k: nat): (r: seq<RefreshRecord>)
    requires k < |tokens|
    ensures |r| == |tokens| && r[k].isRevoked && r[k] == tokens[k].(isRevoked := r[k].isRevoked)
    ensures forall i :: 0 <= i < |r| && i != k ==> r[i] == tokens[i]
  {
    tokens[k := tokens[k].(isRevoked := true)]
  }

  /** Every token of `userId` revoked; the others untouched. */
  function RevokeAllOf(tokens: seq<RefreshRecord>, userId: ObjectId): (r: seq<RefreshRecord>)
    ensures |r| == |tokens|
    ensures forall i :: 0 <= i < |r| ==> r[i] == tokens[i].(isRevoked := r[i].isRevoked)
    ensures forall i :: 0 <= i < |r| && tokens[i].userId == userId ==> r[i].isRevoked
    ensures forall i :: 0 <= i < |r| && tokens[i].userId != userId ==> r[i] == tokens[i]
  {
    if tokens == [] then []
    else
      [if tokens[0].userId == userId then tokens[0].(isRevoked := true) else tokens[0]] +
      RevokeAllOf(tokens[1..], userId)
  }

  predicate DistinctOtpIds(otps: seq<OtpRecord>)
  {
    forall i, j :: 0 <= i < j < |otps| ==> otps[i].id != otps[j].id
  }

  predicate DistinctTokenIds(tokens: seq<RefreshRecord>)
  {
    forall i, j :: 0 <= i < j < |tokens| ==> tokens[i].id != tokens[j].id
  }

  // ---------------------------------------------------------------------------
  // Properties of the OTP and token tables

  /** Consuming the OTP a verification found removes exactly one candidate for that code. */
  lemma {:induction false} ConsumeRemovesOne(otps: seq<OtpRecord>, email: string, code: string, now: int,
                          purpose: Option<OtpPurpose>)
    requires FirstWhere(otps, OtpFilter(email, code, now, purpose)).Some?
    ensures var k := FirstWhere(otps, OtpFilter(email, code, now, purpose)).value;
      CountWhere(MarkUsed(otps, k), OtpFilter(email, code, now, purpose)) ==
      CountWhere(otps, OtpFilter(email, code, now, purpose)) - 1
  {
    var k := FirstWhere(otps, OtpFilter(email, code, now, purpose)).value;
    CountUpdate(otps, k, otps[k].(isUsed := true), OtpFilter(email, code, now, purpose));
  }

  /**
   * An OTP issued once succeeds once: after it is consumed, no check with the same
   * email and code succeeds at that time or later, whatever purpose it asks for.
   */
  lemma {:induction false} SingleUse(otps: seq<OtpRecord>, email: string, code: string, now: int, later: int,
                  purpose: Option<OtpPurpose>, again: Option<OtpPurpose>)
    requires CountWhere(otps, OtpFilter(email, code, now, None)) == 1
    requires FirstWhere(otps, OtpFilter(email, code, now, purpose)).Some?
    requires later >= now
    ensures var k := FirstWhere(otps, OtpFilter(email, code, now, purpose)).value;
      FirstWhere(MarkUsed(otps, k), OtpFilter(email, code, later, again)).None?
  {
    var k := FirstWhere(otps, OtpFilter(email, code, now, purpose)).value;
    var after := MarkUsed(otps, k);
    CountUpdate(otps, k, otps[k].(isUsed := true), OtpFilter(email, code, now, None));
    assert CountWhere(after, OtpFilter(email, code, now, None)) == 0;
    forall i | 0 <= i < |after|
      ensures !OtpFilter(email, code, later, again)(after[i])
    {
      assert !OtpFilter(email, code, now, None)(after[i]);
    }
  }

  /**
   * A verification-purpose check finds an OTP whenever the reset check does, but a
   * registration OTP that verifies an e-mail can never reset a password.
   */
  lemma {:induction false} PurposeOnlyForReset(otps: seq<OtpRecord>, email: string, code: string, now: int)
    ensures FirstWhere(otps, OtpFilter(email, code, now, Some(PasswordReset))).Some? ==>
            FirstWhere(otps, OtpFilter(email, code, now, None)).Some?
    ensures (forall i :: 0 <= i < |otps| ==> otps[i].purpose == Registration) ==>
            FirstWhere(otps, OtpFilter(email, code, now, Some(PasswordReset))).None?
  {
    var r := FirstWhere(otps, OtpFilter(email, code, now, Some(PasswordReset)));
    if r.Some? {
      assert OtpFilter(email, code, now, None)(otps[r.value]);
    }
  }

  /**
   * A rotation revokes the presented token and stores one new unrevoked token, so
   * the number of unrevoked tokens stays the same, and when the presented token was
   * the only live copy of its hash it can never refresh again.
   */
  lemma {:induction false} RotationReplacesToken(tokens: seq<RefreshRecord>, userId: ObjectId, tokenHash: string,
                              now: int, later: int, issued: RefreshRecord)
    requires FirstWhere(tokens, TokenFilter(userId, tokenHash, now)).Some?
    requires !issued.isRevoked
    ensures var k := FirstWhere(tokens, TokenFilter(userId, tokenHash, now)).value;
      CountWhere(Revoke(tokens, k) + [issued], Unrevoked()) == CountWhere(tokens, Unrevoked())
    ensures var k := FirstWhere(tokens, TokenFilter(userId, tokenHash, now)).value;
      CountWhere(tokens, TokenFilter(userId, tokenHash, now)) == 1 && issued.tokenHash != tokenHash && later >= now ==>
      FirstWhere(Revoke(tokens, k) + [issued], TokenFilter(userId, tokenHash, later)).None?
  {
    var k := FirstWhere(tokens, TokenFilter(userId, tokenHash, now)).value;
    var revoked := Revoke(tokens, k);
    CountUpdate(tokens, k, tokens[k].(isRevoked := true), Unrevoked());
    CountAppend(revoked, issued, Unrevoked());
    if CountWhere(tokens, TokenFilter(userId, tokenHash, now)) == 1 && issued.tokenHash != tokenHash && later >= now {
      CountUpdate(tokens, k, tokens[k].(isRevoked := true), TokenFilter(userId, tokenHash, now));
      var after := revoked + [issued];
      forall i | 0 <= i < |after|
        ensures !TokenFilter(userId, tokenHash, later)(after[i])
      {
        if i < |revoked| {
          assert after[i] == revoked[i];
          assert !TokenFilter(userId, tokenHash, now)(revoked[i]);
        }
      }
    }
  }

  /** After a password reset's revocation no token of that user can refresh. */
  lemma {:induction false} RevokeAllLeavesNoLive(tokens: seq<RefreshRecord>, userId: ObjectId, tokenHash: string, now: int)
    ensures FirstWhere(RevokeAllOf(tokens, userId), TokenFilter(userId, tokenHash, now)).None?
    ensures CountWhere(RevokeAllOf(tokens, userId), Unrevoked()) <= CountWhere(tokens, Unrevoked())
  {
    RevokeAllCount(tokens, userId);
  }

  lemma {:induction false} RevokeAllCount(tokens: seq<RefreshRecord>, userId: ObjectId)
    ensures CountWhere(RevokeAllOf(tokens, userId), Unrevoked()) <= CountWhere(tokens, Unrevoked())
  {
    if tokens != [] {
      RevokeAllCount(tokens[1..], userId);
    }
  }

  /** Revoking tokens changes no document ID. */
  lemma RevokeAllKeepsIds(tokens: seq<RefreshRecord>, userId: ObjectId)
    requires DistinctTokenIds(tokens)
    ensures DistinctTokenIds(RevokeAllOf(tokens, userId))
  {
    var r := RevokeAllOf(tokens, userId);
    assert forall i :: 0 <= i < |r| ==> r[i].id == tokens[i].id;
  }

  /**
   * The outcome of sign-up after the password check, from the tables `users0` and
   * `otps0` to `users` and `otps`: 409 when the duplicate check finds the e-mail,
   * 500 when hashing fails, otherwise the user inserted unless that insert fails,
   * and 201 exactly when its registration OTP is stored too.
   */
  ghost predicate SignedUp(users0: seq<User>, otps0: seq<OtpRecord>, users: seq<User>, otps: seq<OtpRecord>,
                           req: RegisterRequest, hashed: Option<string>, userId: ObjectId, draw: Option<nat>,
                           otpId: ObjectId, now: int, fails: set<Step>, reply: Reply)
    requires draw.Some? ==> draw.value < Otp.OtpBound
  {
    var taken := EmailTaken(users0, req.email, fails);
    var inserted := !taken && hashed.Some? && InsertUser !in fails;
    (taken ==> reply == Reply(409, EmailInUse)) &&
    (!taken && hashed.None? ==> reply == Reply(500, "Failed to process password")) &&
    users == (if inserted then users0 + [NewUser(req, hashed.value, userId, now)] else users0) &&
    (reply.status == 201 <==> inserted && draw.Some? && InsertOtp !in fails) &&
    otps == (if reply.status == 201
             then otps0 + [NewOtp(otpId, req.email, Otp.GenerateOTP(draw).code, Registration, now)]
             else otps0)
  }

  /**
   * The outcome of a refresh from the token table `tokens0` to `tokens`: 401 for a
   * token that does not validate, has no live stored copy, or belongs to no
   * verified, active user; otherwise the stored copy is revoked and one new token
   * issued, with 200 exactly when both writes succeed.
   */
  ghost predicate Rotated(tokens0: seq<RefreshRecord>, tokens: seq<RefreshRecord>, users: seq<User>, token: string,
                          validate: string -> Option<AuthMiddleware.Claims>, hash: string -> string, now: int,
                          pair: Option<TokenPair>, tokenId: ObjectId, refreshLifetime: int, fails: set<Step>,
                          reply: Reply)
  {
    if validate(token).None? then reply == Reply(401, InvalidRefresh) && tokens == tokens0
    else
      var c := validate(token).value;
      var k := FirstWhere(tokens0, TokenFilter(c.userId, hash(token), now));
      var u := FirstWhere(users, ActiveWithId(c.userId));
      (k.None? ==> reply == Reply(401, InvalidRefresh)) &&
      (k.Some? && u.None? ==> reply == Reply(401, "User not found or inactive")) &&
      (reply.status == 200 <==> k.Some? && u.Some? && pair.Some? && RevokeToken !in fails && InsertToken !in fails) &&
      tokens == (if k.Some? && u.Some? && pair.Some? && RevokeToken !in fails
                 then Revoke(tokens0, k.value) +
                      (if InsertToken !in fails
                       then [Issue(tokenId, users[u.value].id, hash(pair.value.refresh), now, refreshLifetime)]
                       else [])
                 else tokens0)
  }

  // ---------------------------------------------------------------------------
  // The handlers

  class AuthStore {
    var users: seq<User>
    var otps: seq<OtpRecord>
    var tokens: seq<RefreshRecord>

    /** Document IDs come from the ObjectID generator and are never reused. */
    predicate Valid()
      reads this
    {
      DistinctOtpIds(otps) && DistinctTokenIds(tokens)
    }

    constructor ()
      ensures Valid() && users == [] && otps == [] && tokens == []
    {
      users, otps, tokens := [], [], [];
    }

    /**
     * Sign-up: a body that parses and validates, with a strong password and an
     * e-mail the duplicate check does not find, gives a new unverified, active user
     * and a registration OTP that is unused and expires ten minutes later.  The
     * user stays stored even when the OTP cannot be made or stored.
     */
    method Register(body: Checked<RegisterRequest>, hashed: Option<string>, userId: ObjectId,
                    draw: Option<nat>, otpId: ObjectId, now: int, fails: set<Step>)
      returns (reply: Reply)
      requires Valid()
      requires draw.Some? ==> draw.value < Otp.OtpBound
      requires forall i :: 0 <= i < |otps| ==> otps[i].id != otpId
      modifies this`users, this`otps
      ensures Valid()
      ensures body.Invalid? ==> reply == Reply(400, body.message) && users == old(users) && otps == old(otps)
      ensures body.Parsed? && !Validator.IsStrongPassword(body.value.password) ==>
                reply == Reply(400, WeakPassword) && users == old(users) && otps == old(otps)
      ensures body.Parsed? && Validator.IsStrongPassword(body.value.password) ==>
                SignedUp(old(users), old(otps), users, otps, body.value, hashed, userId, draw, otpId, now, fails, reply)
      ensures UniqueEmails(old(users)) && LookupUser !in fails ==> UniqueEmails(users)
    {
      if body.Invalid? {
        return Reply(400, body.message);
      }
      if !Validator.IsStrongPassword(body.value.password) {
        return Reply(400, WeakPassword);
      }
      reply := SignUp(body.value, hashed, userId, draw, otpId, now, fails);
    }

    /**
     * Sign-up after the password check: the duplicate check must not find the
     * e-mail and the hashing must succeed.  When the lookup itself fails the check
     * passes, so a second user with the same e-mail can be stored.
     */
    method SignUp(req: RegisterRequest, hashed: Option<string>, userId: ObjectId,
                  draw: Option<nat>, otpId: ObjectId, now: int, fails: set<Step>)
      returns (reply: Reply)
      requires Valid()
      requires draw.Some? ==> draw.value < Otp.OtpBound
      requires forall i :: 0 <= i < |otps| ==> otps[i].id != otpId
      modifies this`users, this`otps
      ensures Valid()
      ensures SignedUp(old(users), old(otps), users, otps, req, hashed, userId, draw, otpId, now, fails, reply)
      ensures UniqueEmails(old(users)) && LookupUser !in fails ==> UniqueEmails(users)
    {
      if EmailTaken(users, req.email, fails) {
        return Reply(409, EmailInUse);
      }
      if hashed.None? {
        return Reply(500, "Failed to process password");
      }
      ghost var before := users;
      reply := CreateAccount(NewUser(req, hashed.value, userId, now), draw, otpId, now, fails);
      if LookupUser !in fails && users != before && UniqueEmails(before) {
        FreshEmailKeepsUnique(before, users[|users| - 1]);
      }
    }

    /** Sign-up after the checks and the hashing: stores the user `u`, then its registration OTP. */
    method CreateAccount(u: User, draw: Option<nat>, otpId: ObjectId, now: int, fails: set<Step>)
      returns (reply: Reply)
      requires Valid()
      requires draw.Some? ==> draw.value < Otp.OtpBound
      requires forall i :: 0 <= i < |otps| ==> otps[i].id != otpId
      modifies this`users, this`otps
      ensures Valid()
      ensures users == (if InsertUser !in fails then old(users) + [u] else old(users))
      ensures reply.status == 201 <==> draw.Some? && InsertUser !in fails && InsertOtp !in fails
      ensures otps == (if reply.status == 201
                       then old(otps) + [NewOtp(otpId, u.email, Otp.GenerateOTP(draw).code, Registration, now)]
                       else old(otps))
    {
      if InsertUser in fails {
        return Reply(500, "Failed to create user");
      }
      users := users + [u];
      var failure := StoreOtp(u.email, Registration, draw, otpId, now, fails);
      reply := if failure.Some? then failure.value
               else Reply(201, "User registered successfully. Please verify your email with the OTP sent.");
    }

    /**
     * Draws a code and stores it as an unused OTP for `email` that expires ten
     * minutes from now; on failure nothing is stored and the 500 reply is returned.
     */
    method StoreOtp(email: string, purpose: OtpPurpose, draw: Option<nat>, otpId: ObjectId,
                    now: int, fails: set<Step>)
      returns (failure: Option<Reply>)
      requires Valid()
      requires draw.Some? ==> draw.value < Otp.OtpBound
      requires forall i :: 0 <= i < |otps| ==> otps[i].id != otpId
      modifies this`otps
      ensures Valid()
      ensures draw.None? ==> failure == Some(Reply(500, "Failed to generate OTP"))
      ensures draw.Some? && InsertOtp in fails ==> failure == Some(Reply(500, "Failed to store OTP"))
      ensures failure.None? <==> draw.Some? && InsertOtp !in fails
      ensures failure.Some? ==> failure.value.status == 500
      ensures otps == (if failure.None?
                       then old(otps) + [NewOtp(otpId, email, Otp.GenerateOTP(draw).code, purpose, now)]
                       else old(otps))
    {
      var otp := Otp.GenerateOTP(draw);
      if otp.failed {
        return Some(Reply(500, "Failed to generate OTP"));
      }
      if InsertOtp in fails {
        return Some(Reply(500, "Failed to store OTP"));
      }
      otps := otps + [NewOtp(otpId, email, otp.code, purpose, now)];
      failure := None;
    }

    /**
     * E-mail verification.  Outside the test bypass, the first unused, unexpired OTP
     * with this e-mail and code (of any purpose) is consumed, the first user with the
     * e-mail is marked verified and a refresh token is stored for it.
     */
    method VerifyOTP(body: Checked<OtpRequest>, testEnvironment: bool, now: int,
                     pair: Option<TokenPair>, hash: string -> string, tokenId: ObjectId,
                     refreshLifetime: int, fails: set<Step>)
      returns (reply: Reply)
      requires Valid()
      requires forall i :: 0 <= i < |tokens| ==> tokens[i].id != tokenId
      modifies this
      ensures Valid()
      ensures body.Invalid? ==>
                reply == Reply(400, body.message) && users == old(users) && otps == old(otps) && tokens == old(tokens)
      ensures body.Parsed? ==>
              var email, code := body.value.email, body.value.code;
              var bypass := testEnvironment && code == TestCode;
              var k := FirstWhere(old(otps), OtpFilter(email, code, now, None));
              (!bypass && k.None? ==> reply == Reply(400, InvalidOtp)) &&
              otps == (if !bypass && k.Some? && MarkOtpUsed !in fails then MarkUsed(old(otps), k.value) else old(otps))
      ensures body.Parsed? ==>
              var email, code := body.value.email, body.value.code;
              var bypass := testEnvironment && code == TestCode;
              var k := FirstWhere(old(otps), OtpFilter(email, code, now, None));
              var u := FirstWhere(old(users), WithEmail(email));
              var verified := (bypass || (k.Some? && MarkOtpUsed !in fails)) && u.Some? && VerifyUser !in fails;
              users == (if verified then Verify(old(users), u.value, now) else old(users)) &&
              (reply.status == 200 <==> verified && pair.Some? && InsertToken !in fails) &&
              tokens == (if reply.status == 200
                         then old(tokens) + [Issue(tokenId, old(users)[u.value].id, hash(pair.value.refresh), now, refreshLifetime)]
                         else old(tokens))
    {
      if body.Invalid? {
        return Reply(400, body.message);
      }
      var email, code := body.value.email, body.value.code;
      var bypass := testEnvironment && code == TestCode;
      if !bypass {
        var k := FirstWhere(otps, OtpFilter(email, code, now, None));
        if k.None? {
          return Reply(400, InvalidOtp);
        }
        if MarkOtpUsed in fails {
          return Reply(500, "Failed to update OTP status");
        }
        otps := MarkUsed(otps, k.value);
      }
      reply := VerifyAndIssue(email, bypass, now, pair, hash, tokenId, refreshLifetime, fails);
    }

    /**
     * Verification once the code is accepted: the first user with the e-mail is
     * marked verified and a refresh token is stored for it.
     */
    method VerifyAndIssue(email: string, bypass: bool, now: int, pair: Option<TokenPair>, hash: string -> string,
                          tokenId: ObjectId, refreshLifetime: int, fails: set<Step>)
      returns (reply: Reply)
      requires Valid()
      requires forall i :: 0 <= i < |tokens| ==> tokens[i].id != tokenId
      modifies this`users, this`tokens
      ensures Valid()
      ensures var u := FirstWhere(old(users), WithEmail(email));
              var verified := u.Some? && VerifyUser !in fails;
              users == (if verified then Verify(old(users), u.value, now) else old(users)) &&
              (reply.status == 200 <==> verified && pair.Some? && InsertToken !in fails) &&
              tokens == (if reply.status == 200
                         then old(tokens) + [Issue(tokenId, old(users)[u.value].id, hash(pair.value.refresh), now, refreshLifetime)]
                         else old(tokens))
    {
      var u := FirstWhere(users, WithEmail(email));
      if u.None? || VerifyUser in fails {
        return Reply(500, if bypass then "Failed to mock verify user" else "Failed to verify user");
      }
      var user := users[u.value];
      users := Verify(users, u.value, now);
      if pair.None? {
        return Reply(500, "Failed to generate tokens");
      }
      if InsertToken in fails {
        return Reply(500, "Failed to store refresh token");
      }
      tokens := tokens + [Issue(tokenId, user.id, hash(pair.value.refresh), now, refreshLifetime)];
      reply := Reply(200, if bypass then "\U{2705} Test email verified successfully" else "Email verified successfully");
    }

    /**
     * Password-reset request: the reply is the same whether or not a verified,
     * active user has the e-mail; only when one does is a reset OTP stored.
     */
    method ForgotPassword(body: Checked<ForgotRequest>, draw: Option<nat>, otpId: ObjectId, now: int, fails: set<Step>)
      returns (reply: Reply)
      requires Valid()
      requires draw.Some? ==> draw.value < Otp.OtpBound
      requires forall i :: 0 <= i < |otps| ==> otps[i].id != otpId
      modifies this`otps
      ensures Valid()
      ensures body.Invalid? ==> reply == Reply(400, body.message) && otps == old(otps)
      ensures body.Parsed? ==>
              var email := body.value.email;
              (reply.status != 500 ==> reply == Reply(200, ResetRequested)) &&
              (reply.status == 500 <==>
                 FirstWhere(users, ActiveWithEmail(email)).Some? && (draw.None? || InsertOtp in fails)) &&
              otps == (if FirstWhere(users, ActiveWithEmail(email)).Some? && reply.status == 200
                       then old(otps) + [NewOtp(otpId, email, Otp.GenerateOTP(draw).code, PasswordReset, now)]
                       else old(otps))
    {
      if body.Invalid? {
        return Reply(400, body.message);
      }
      var email := body.value.email;
      if FirstWhere(users, ActiveWithEmail(email)).None? {
        return Reply(200, ResetRequested);
      }
      var failure := StoreOtp(email, PasswordReset, draw, otpId, now, fails);
      reply := if failure.Some? then failure.value else Reply(200, ResetRequested);
    }

    /**
     * Password reset with a reset-purpose OTP: the OTP is consumed, the first user
     * with the e-mail gets the new hash, and every refresh token of that user is
     * revoked (a failed revocation is ignored; with no such user the zero ID is used).
     */
    method ResetPassword(body: Checked<ResetRequest>, hashed: Option<string>, now: int, fails: set<Step>)
      returns (reply: Reply)
      requires Valid()
      modifies this
      ensures Valid()
      ensures body.Invalid? ==>
                reply == Reply(400, body.message) && users == old(users) && otps == old(otps) && tokens == old(tokens)
      ensures body.Parsed? && !Validator.IsStrongPassword(body.value.password) ==> reply == Reply(400, WeakPassword)
      ensures body.Parsed? ==>
              var email, code := body.value.email, body.value.code;
              var k := FirstWhere(old(otps), OtpFilter(email, code, now, Some(PasswordReset)));
              (Validator.IsStrongPassword(body.value.password) && k.None? ==> reply == Reply(400, InvalidOtp)) &&
              var consumed := Validator.IsStrongPassword(body.value.password) && k.Some? && MarkOtpUsed !in fails;
              otps == (if consumed then MarkUsed(old(otps), k.value) else old(otps)) &&
              (reply.status == 200 <==> consumed && hashed.Some? && UpdatePassword !in fails)
      ensures body.Parsed? ==>
              var u := FirstWhere(old(users), WithEmail(body.value.email));
              users == (if reply.status == 200 && u.Some?
                        then old(users)[u.value := old(users)[u.value].(passwordHash := hashed.value, updatedAt := now)]
                        else old(users))
      ensures body.Parsed? ==>
              var u := FirstWhere(old(users), WithEmail(body.value.email));
              var owner := if u.Some? then old(users)[u.value].id else NilId;
              tokens == (if reply.status == 200 && RevokeUserTokens !in fails
                         then RevokeAllOf(old(tokens), owner) else old(tokens))
    {
      if body.Invalid? {
        return Reply(400, body.message);
      }
      var email, code, password := body.value.email, body.value.code, body.value.password;
      if !Validator.IsStrongPassword(password) {
        return Reply(400, WeakPassword);
      }
      var k := FirstWhere(otps, OtpFilter(email, code, now, Some(PasswordReset)));
      if k.None? {
        return Reply(400, InvalidOtp);
      }
      if MarkOtpUsed in fails {
        return Reply(500, "Failed to update OTP status");
      }
      otps := MarkUsed(otps, k.value);
      if hashed.None? {
        return Reply(500, "Failed to process password");
      }
      if UpdatePassword in fails {
        return Reply(500, "Failed to update password");
      }
      ApplyReset(email, hashed.value, now, fails);
      reply := Reply(200, "Password reset successfully");
    }

    /**
     * The writes of a password reset: the first user with the e-mail gets the new
     * hash, and the tokens of that user (of the zero ID when there is none) are revoked.
     */
    method ApplyReset(email: string, passwordHash: string, now: int, fails: set<Step>)
      requires Valid()
      modifies this`users, this`tokens
      ensures Valid()
      ensures var u := FirstWhere(old(users), WithEmail(email));
              users == (if u.Some?
                        then old(users)[u.value := old(users)[u.value].(passwordHash := passwordHash, updatedAt := now)]
                        else old(users))
      ensures var u := FirstWhere(old(users), WithEmail(email));
              var owner := if u.Some? then old(users)[u.value].id else NilId;
              tokens == (if RevokeUserTokens !in fails then RevokeAllOf(old(tokens), owner) else old(tokens))
    {
      var u := FirstWhere(users, WithEmail(email));
      var owner := NilId;
      if u.Some? {
        owner := users[u.value].id;
        users := users[u.value := users[u.value].(passwordHash := passwordHash, updatedAt := now)];
      }
      if RevokeUserTokens !in fails {
        RevokeAllKeepsIds(tokens, owner);
        tokens := RevokeAllOf(tokens, owner);
      }
    }

    /**
     * Refresh-token rotation: a valid token whose hash is stored unrevoked and
     * unexpired for a verified, active user is revoked and replaced by one new
     * unrevoked token.
     */
    method RefreshToken(body: Option<string>, validate: string -> Option<AuthMiddleware.Claims>,
                        hash: string -> string, now: int, pair: Option<TokenPair>,
                        tokenId: ObjectId, refreshLifetime: int, fails: set<Step>)
      returns (reply: Reply)
      requires Valid()
      requires forall i :: 0 <= i < |tokens| ==> tokens[i].id != tokenId
      modifies this`tokens
      ensures Valid()
      ensures body.None? ==> reply == Reply(400, InvalidBody) && tokens == old(tokens)
      ensures body.Some? ==>
                Rotated(old(tokens), tokens, users, body.value, validate, hash, now, pair, tokenId, refreshLifetime, fails, reply)
    {
      if body.None? {
        return Reply(400, InvalidBody);
      }
      reply := Rotate(body.value, validate, hash, now, pair, tokenId, refreshLifetime, fails);
    }

    /** The rotation once the body has given the presented token. */
    method Rotate(token: string, validate: string -> Option<AuthMiddleware.Claims>,
                  hash: string -> string, now: int, pair: Option<TokenPair>,
                  tokenId: ObjectId, refreshLifetime: int, fails: set<Step>)
      returns (reply: Reply)
      requires Valid()
      requires forall i :: 0 <= i < |tokens| ==> tokens[i].id != tokenId
      modifies this`tokens
      ensures Valid()
      ensures Rotated(old(tokens), tokens, users, token, validate, hash, now, pair, tokenId, refreshLifetime, fails, reply)
    {
      var claims := validate(token);
      if claims.None? {
        return Reply(401, InvalidRefresh);
      }
      var k := FirstWhere(tokens, TokenFilter(claims.value.userId, hash(token), now));
      if k.None? {
        return Reply(401, InvalidRefresh);
      }
      var u := FirstWhere(users, ActiveWithId(claims.value.userId));
      if u.None? {
        return Reply(401, "User not found or inactive");
      }
      if pair.None? {
        return Reply(500, "Failed to generate tokens");
      }
      if RevokeToken in fails {
        return Reply(500, "Failed to revoke old token");
      }
      tokens := Revoke(tokens, k.value);
      if InsertToken in fails {
        return Reply(500, "Failed to store new refresh token");
      }
      tokens := tokens + [Issue(tokenId, users[u.value].id, hash(pair.value.refresh), now, refreshLifetime)];
      reply := Reply(200, "Tokens refreshed successfully");
    }

    /** Logout revokes the first stored token with the presented token's hash, if any. */
    method Logout(body: Option<string>, hash: string -> string, fails: set<Step>) returns (reply: Reply)
      requires Valid()
      modifies this`tokens
      ensures Valid()
      ensures body.None? ==> reply == Reply(400, InvalidBody) && tokens == old(tokens)
      ensures body.Some? && RevokeToken in fails ==> reply == Reply(500, "Failed to logout") && tokens == old(tokens)
      ensures body.Some? && RevokeToken !in fails ==> reply == Reply(200, "Logged out successfully")
      ensures body.Some? ==>
              var k := FirstWhere(old(tokens), WithHash(hash(body.value)));
              tokens == (if RevokeToken !in fails && k.Some? then Revoke(old(tokens), k.value) else old(tokens))
    {
      if body.None? {
        return Reply(400, InvalidBody);
      }
      var token := body.value;
      if RevokeToken in fails {
        return Reply(500, "Failed to logout");
      }
      var k := FirstWhere(tokens, WithHash(hash(token)));
      if k.Some? {
        tokens := Revoke(tokens, k.value);
      }
      reply := Reply(200, "Logged out successfully");
    }
  }
}
