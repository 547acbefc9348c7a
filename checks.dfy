/** The custom checks of src/middlewares/users.middlewares.ts and the
    `verifiedUserValidator` guard. Each check is a function of the field value
    (trimmed where its schema trims first), of what it reads from the request,
    and of the environment; it either passes with one write to the request
    context, or fails with the `msg` express-validator records: the message of
    a thrown `Error`, or a thrown `ErrorWithStatus` itself. */
module Checks {
  import opened Errors
  import opened Store
  import opened Requests
  import Text

  datatype CheckResult = Pass(write: Write) | Fail(msg: Msg)

  /** `throw new ErrorWithStatus({ message, status })`. */
  function Throw(message: Option<string>, status: int): CheckResult {
    Fail(WithStatus(NewErrorWithStatus(message, status)))
  }

  /** A check that fails only with plain messages: its failures are
      aggregated by `validate`, never forwarded on their own. */
  predicate NeverThrowsStatus(r: CheckResult) {
    r.Fail? ==> r.msg.Plain?
  }

  /** JavaScript's `String(v)`, the coercion of `password + salt`. */
  function JsString(v: Input): string {
    match v
    case Undefined => "undefined"
    case Value(JString(s)) => s
    case Value(JNumber(n)) => Text.IntToString(n)
    case Value(JBool(b)) => if b then "true" else "false"
    case Value(JNull) => "null"
    case Value(JObject(_)) => "[object Object]"
  }

  /** `hasPassword(v)`. */
  function HashOf(env: Env, v: Input): string {
    env.hash(JsString(v))
  }

  /** JavaScript's `a !== b` on parsed JSON values: objects parsed separately
      are distinct references, so never identical. */
  predicate StrictEquals(a: Input, b: Input) {
    match (a, b)
    case (Undefined, Undefined) => true
    case (Value(JString(x)), Value(JString(y))) => x == y
    case (Value(JNumber(x)), Value(JNumber(y))) => x == y
    case (Value(JBool(x)), Value(JBool(y))) => x == y
    case (Value(JNull), Value(JNull)) => true
    case _ => false
  }

  // ---------------------------------------------------------------------------
  // Token guards

  /** `(value ?? '').split(' ')[1]` when it is a non-empty string: the second
      space-separated segment of the header. */
  function AccessTokenOf(value: string): (r: Option<string>)
    ensures r.Some? <==> |Text.Split(value, ' ')| >= 2 && Text.Split(value, ' ')[1] != ""
    ensures r.Some? ==> r.value == Text.Split(value, ' ')[1]
  {
    var parts := Text.Split(value, ' ');
    if |parts| >= 2 && parts[1] != "" then Some(parts[1]) else None
  }

  /** `accessTokenValidator`'s custom check on the trimmed `Authorization`
      value. A rejection of `verifyToken` is not caught here, so express-validator
      records its message as a plain one. */
  function AccessTokenCheck(env: Env, value: string): CheckResult {
    match AccessTokenOf(value)
    case None => Throw(UserMessage(AccessTokenIsRequired), UNAUTHORIZED)
    case Some(token) =>
      match env.verify(AccessTokenSecret, token)
      case JwtError(m) => Fail(Plain(m))
      case Decoded(p) => Pass(SetDecodeAuthorization(p))
  }

  /** `refreshTokenValidator`'s custom check. The signature check and the
      record lookup run under `Promise.all`; a signature failure is taken to
      settle first, so it wins over a store failure. */
  function RefreshTokenCheck(env: Env, value: string): CheckResult {
    if value == "" then Throw(UserMessage(RefreshTokenIsRequired), UNAUTHORIZED)
    else match env.verify(RefreshTokenSecret, value)
      case JwtError(_) => Throw(UserMessage(RefreshTokenIsInvalid), 401)
      case Decoded(p) =>
        match FindRefreshToken(env.db, value)
        case Failed(m) => Fail(Plain(m))
        case NotFound => Throw(UserMessage(RefreshTokenNotExist), UNAUTHORIZED)
        case Found(_) => Pass(SetDecodeRefreshToken(p))
  }

  /** `emailVerifyTokenValidator`'s custom check: the token is verified with
      the access-token secret, and every failure after the emptiness test
      becomes the same 401. (A decoded payload is an object, so the `!decoded`
      test inside never fires.) */
  function EmailVerifyTokenCheck(env: Env, value: string): CheckResult {
    if value == "" then Throw(UserMessage(EmailVerifyTokenIsRequired), UNAUTHORIZED)
    else match env.verify(AccessTokenSecret, value)
      case JwtError(_) => Throw(UserMessage(RefreshTokenIsInvalid), UNAUTHORIZED)
      case Decoded(p) => Pass(SetDecodedEmailVerifyToken(p))
  }

  /** The forgot-password token check. It occurs twice in the source: in
      `forgotPasswordSchema`, which attaches the payload (`attach`), and in
      `verifyForgotTokenValidator`, which does not. Errors other than JWT ones
      are rethrown unchanged. */
  function ForgotTokenCheck(env: Env, value: string, attach: bool): CheckResult {
    if value == "" then Throw(Some("Forgot token is required"), UNAUTHORIZED)
    else match env.verify(ForgotPasswordTokenSecret, value)
      case JwtError(_) => Throw(UserMessage(RefreshTokenIsInvalid), 401)
      case Decoded(p) =>
        match FindUser(env.db, ById(p.userId))
        case Failed(m) => Fail(Plain(m))
        case NotFound => Throw(UserMessage(UserNotFound), UNAUTHORIZED)
        case Found(u) =>
          if u.forgotPasswordToken != value then Throw(Some("Invalid"), UNAUTHORIZED)
          else Pass(if attach then SetDecodeForgotToken(p) else NoWrite)
  }

  const NotVerifiedMessage := "User is not verifed"

  /** The `TypeError` of destructuring `prop` out of an undefined
      `req.decoded_authorization` (V8's wording); its own properties are not
      enumerable. */
  function DestructureError(prop: string): (e: ErrorObject)
    ensures e.own.Keys == {"message", "stack"} && e.enumerable == {}
  {
    var text := "Cannot destructure property '" + prop + "' of 'req.decoded_authorization' as it is undefined.";
    ErrorObject(map["message" := JString(text), "stack" := JString("TypeError: " + text)], {})
  }

  /** `verifiedUserValidator`: the error it passes to `next`, or None when it
      calls `next()`. It reads `req.decoded_authorization`. */
  function VerifiedUserGuard(ctx: Context): Option<Thrown> {
    match ctx.decodedAuthorization
    case None => Some(Untyped(DestructureError("verify")))
    case Some(p) =>
      if p.verify != Verified then Some(Typed(NewErrorWithStatus(Some(NotVerifiedMessage), FORBIDDEN)))
      else None
  }

  // ---------------------------------------------------------------------------
  // Field checks

  /** `confirmPasswordSchema`'s custom check against `req.body.password`. */
  function ConfirmPasswordCheck(value: Input, password: Input): CheckResult {
    if !StrictEquals(value, password) then Fail(Plain("Password confirmation does not match password"))
    else Pass(NoWrite)
  }

  /** `userIdSchema`'s custom check (follow and unfollow). */
  function UserIdCheck(env: Env, value: Input): CheckResult {
    match ObjectIdOf(env.lib, value)
    case None => Throw(Some("User not found"), NOT_FOUND)
    case Some(id) =>
      match FindUser(env.db, ById(id))
      case Failed(m) => Fail(Plain(m))
      case NotFound => Throw(Some("User not found"), NOT_FOUND)
      case Found(_) => Pass(NoWrite)
  }

  /** `loginValidator`'s custom check on the trimmed email: a user with this
      email and the hash of `req.body.password` must exist; it is attached as
      `req.user`. */
  function LoginCheck(env: Env, value: string, password: Input): CheckResult {
    match FindUser(env.db, ByCredentials(value, HashOf(env, password)))
    case Failed(m) => Fail(Plain(m))
    case NotFound => Fail(Plain(ErrorText(UserMessage(EmailOrPasswordError))))
    case Found(u) => Pass(SetUser(Loaded(u)))
  }

  /** `registerValidator`'s custom check: `checkEmailExist` must be false. */
  function EmailNotTakenCheck(env: Env, value: string): CheckResult {
    match FindUser(env.db, ByEmail(value))
    case Failed(m) => Fail(Plain(m))
    case Found(_) => Fail(Plain("Email already existed"))
    case NotFound => Pass(NoWrite)
  }

  /** `forgotPasswordValidator`'s custom check. The lookup is not awaited, so
      what it compares with `null` is a promise: the check always passes and
      `req.user` receives the pending lookup. */
  function ForgotEmailCheck(value: string): CheckResult {
    Pass(SetUser(Pending(ByEmail(value))))
  }

  /** `updateMeValidator`'s username check: the pattern must match and no user
      may have the name. */
  function UsernameCheck(env: Env, value: string): CheckResult {
    if !env.lib.matchesUsernamePattern(value) then Fail(Plain("Invalid"))
    else match FindUser(env.db, ByUsername(value))
      case Failed(m) => Fail(Plain(m))
      case Found(_) => Fail(Plain("User name is existed"))
      case NotFound => Pass(NoWrite)
  }

  /** The message of the `BSONError` that `new ObjectId(s)` throws for a
      string that is not an id. */
  const InvalidObjectIdText := "input must be a 24 character hex string, 12 byte Uint8Array, or an integer"

  /** `changePasswordValidator`'s check of `old_password`: it reads
      `req.decoded_authorization`, fetches the user and compares hashes. A
      thrown `TypeError` or `BSONError` is an `Error`, so recorded as plain. */
  function OldPasswordCheck(env: Env, value: Input, decoded: Option<Payload>): CheckResult {
    match decoded
    case None => Fail(Plain(DestructureError("user_id").own["message"].s))
    case Some(p) =>
      match ObjectIdOf(env.lib, Value(JString(p.userId)))
      case None => Fail(Plain(InvalidObjectIdText))
      case Some(id) =>
        match FindUser(env.db, ById(id))
        case Failed(m) => Fail(Plain(m))
        case NotFound => Throw(Some("User not found"), NOT_FOUND)
        case Found(u) =>
          if HashOf(env, value) != u.password then Throw(Some("Not match"), NOT_FOUND)
          else Pass(NoWrite)
  }

  // ---------------------------------------------------------------------------
  // Properties of the checks

  /** The access token is the second space-separated segment: for a scheme
      and a token without spaces, the token is found exactly. */
  lemma BearerToken(scheme: string, token: string)
    requires ' ' !in scheme && ' ' !in token && token != ""
    ensures AccessTokenOf(scheme + " " + token) == Some(token)
  {
    Text.SplitPair(scheme, token, ' ');
    assert scheme + " " + token == scheme + [' '] + token;
  }

  /** Without a second segment (no space, or nothing after it) the header
      yields no token. */
  lemma NoSecondSegment(value: string)
    requires ' ' !in value
    ensures AccessTokenOf(value).None?
    ensures AccessTokenOf(value + " ").None?
  {
    Text.SplitWithoutSeparator(value, ' ');
    Text.SplitPair(value, "", ' ');
    assert value + " " == value + [' '] + "";
  }

  /** The access guard fails with 401 `ACCESS_TOKEN_IS_REQUIRED` exactly when
      the token segment is absent or empty; otherwise it attaches the decoded
      payload as `req.decode_authorization` or, when verification rejects,
      records the verifier's message as a plain one. */
  lemma AccessGuardOutcomes(env: Env, value: string)
    ensures var r := AccessTokenCheck(env, value);
      (r == Throw(Some("Access token is required"), 401) <==> AccessTokenOf(value).None?) &&
      (r.Pass? <==> AccessTokenOf(value).Some? && env.verify(AccessTokenSecret, AccessTokenOf(value).value).Decoded?) &&
      (r.Pass? ==> r.write == SetDecodeAuthorization(env.verify(AccessTokenSecret, AccessTokenOf(value).value).payload)) &&
      (r.Fail? && r.msg.Plain? <==> AccessTokenOf(value).Some? && env.verify(AccessTokenSecret, AccessTokenOf(value).value).JwtError?)
  {
  }

  /** The refresh guard: an empty value gives 401 `REFRETCH_TOKEN_IS_REQUIRED`;
      a signature failure gives 401 `REFRETCH_TOKEN_IS_INVALID` whatever the
      store holds; a valid token without a record gives 401 with the undefined
      `REFRESH_TOKEN_NOT_EXIST` message; a store failure is rethrown; and only
      a valid token with a record passes, attaching `req.decode_refresh_token`. */
  lemma RefreshGuardOutcomes(env: Env, value: string, other: Db)
    ensures value == "" ==> RefreshTokenCheck(env, value) == Throw(Some("Refretch token is required"), 401)
    ensures value != "" && env.verify(RefreshTokenSecret, value).JwtError? ==>
      RefreshTokenCheck(env, value) == Throw(Some("Refretch token is invalid"), 401) &&
      RefreshTokenCheck(env.(db := other), value) == RefreshTokenCheck(env, value)
    ensures value != "" && env.verify(RefreshTokenSecret, value).Decoded? && env.db.fault.None? &&
            (forall t :: t in env.db.refreshTokens ==> t.token != value) ==>
      RefreshTokenCheck(env, value) == Throw(None, 401)
    ensures value != "" && env.verify(RefreshTokenSecret, value).Decoded? && env.db.fault.Some? ==>
      RefreshTokenCheck(env, value) == Fail(Plain(env.db.fault.value))
    ensures RefreshTokenCheck(env, value).Pass? <==>
      value != "" && env.verify(RefreshTokenSecret, value).Decoded? && FindRefreshToken(env.db, value).Found?
    ensures RefreshTokenCheck(env, value).Pass? ==>
      RefreshTokenCheck(env, value).write == SetDecodeRefreshToken(env.verify(RefreshTokenSecret, value).payload)
  {
  }

  /** The email-verify guard: after the emptiness test every failure is the
      same 401 `REFRETCH_TOKEN_IS_INVALID`; the outcome depends only on the
      verifier under the access-token secret, not on the store; a pass attaches
      `req.decoded_email_verify_token`. */
  lemma EmailVerifyGuardOutcomes(env: Env, value: string, other: Env)
    ensures value == "" ==> EmailVerifyTokenCheck(env, value) == Throw(None, 401)
    ensures value != "" && EmailVerifyTokenCheck(env, value).Fail? ==>
      EmailVerifyTokenCheck(env, value) == Throw(Some("Refretch token is invalid"), 401)
    ensures other.verify(AccessTokenSecret, value) == env.verify(AccessTokenSecret, value) ==>
      EmailVerifyTokenCheck(other, value) == EmailVerifyTokenCheck(env, value)
    ensures EmailVerifyTokenCheck(env, value).Pass? ==>
      EmailVerifyTokenCheck(env, value).write == SetDecodedEmailVerifyToken(env.verify(AccessTokenSecret, value).payload)
  {
  }

  /** The forgot-password token check: an empty value, a signature failure, a
      missing user and a stored token that differs each give a 401; the two
      copies decide alike, and only the schema copy attaches
      `req.decode_forgot_token`. */
  lemma ForgotTokenOutcomes(env: Env, value: string)
    ensures value == "" ==> ForgotTokenCheck(env, value, true) == Throw(Some("Forgot token is required"), 401)
    ensures value != "" && env.verify(ForgotPasswordTokenSecret, value).JwtError? ==>
      ForgotTokenCheck(env, value, true) == Throw(Some("Refretch token is invalid"), 401)
    ensures value != "" && env.verify(ForgotPasswordTokenSecret, value).Decoded? ==>
      var p := env.verify(ForgotPasswordTokenSecret, value).payload;
      (FindUser(env.db, ById(p.userId)).NotFound? ==> ForgotTokenCheck(env, value, true) == Throw(Some("User not found"), 401)) &&
      (FindUser(env.db, ById(p.userId)).Found? && FindUser(env.db, ById(p.userId)).found.forgotPasswordToken != value ==>
        ForgotTokenCheck(env, value, true) == Throw(Some("Invalid"), 401))
    ensures ForgotTokenCheck(env, value, true).Fail? <==> ForgotTokenCheck(env, value, false).Fail?
    ensures ForgotTokenCheck(env, value, true).Fail? ==> ForgotTokenCheck(env, value, true) == ForgotTokenCheck(env, value, false)
    ensures ForgotTokenCheck(env, value, false).Pass? ==> ForgotTokenCheck(env, value, false).write == NoWrite
    ensures ForgotTokenCheck(env, value, true).Pass? ==>
      ForgotTokenCheck(env, value, true).write == SetDecodeForgotToken(env.verify(ForgotPasswordTokenSecret, value).payload)
  {
  }

  /** `updateMeValidator`'s username check: "Invalid" when the pattern fails,
      "User name is existed" when a user has the name, and a pass without a
      write exactly when the name matches the pattern and no user has it. Its
      failures are plain, so `validate` aggregates them. */
  lemma UsernameOutcomes(env: Env, value: string)
    ensures !env.lib.matchesUsernamePattern(value) ==> UsernameCheck(env, value) == Fail(Plain("Invalid"))
    ensures env.lib.matchesUsernamePattern(value) && FindUser(env.db, ByUsername(value)).Found? ==>
      UsernameCheck(env, value) == Fail(Plain("User name is existed"))
    ensures env.lib.matchesUsernamePattern(value) && env.db.fault.Some? ==>
      UsernameCheck(env, value) == Fail(Plain(env.db.fault.value))
    ensures env.db.fault.None? ==>
      (UsernameCheck(env, value) == Pass(NoWrite) <==>
       env.lib.matchesUsernamePattern(value) && forall u :: u in env.db.users ==> u.username != value)
    ensures NeverThrowsStatus(UsernameCheck(env, value))
  {
  }

  /** `changePasswordValidator`'s old-password check: without a decoded
      payload the destructuring `TypeError` is recorded as a plain error; an
      id that is not an ObjectId records the `BSONError`; a missing user is
      404 'User not found' and a differing hash 404 'Not match'. It passes,
      without a write, exactly when the user exists and the hashes agree. */
  lemma OldPasswordOutcomes(env: Env, value: Input, decoded: Option<Payload>)
    ensures decoded.None? ==>
      OldPasswordCheck(env, value, decoded) == Fail(Plain(DestructureError("user_id").own["message"].s))
    ensures decoded.Some? && ObjectIdOf(env.lib, Value(JString(decoded.value.userId))).None? ==>
      OldPasswordCheck(env, value, decoded) == Fail(Plain(InvalidObjectIdText))
    ensures decoded.Some? && ObjectIdOf(env.lib, Value(JString(decoded.value.userId))).Some? ==>
      var found := FindUser(env.db, ById(ObjectIdOf(env.lib, Value(JString(decoded.value.userId))).value));
      (found.NotFound? ==> OldPasswordCheck(env, value, decoded) == Throw(Some("User not found"), NOT_FOUND)) &&
      (found.Found? && HashOf(env, value) != found.found.password ==>
        OldPasswordCheck(env, value, decoded) == Throw(Some("Not match"), NOT_FOUND)) &&
      (OldPasswordCheck(env, value, decoded).Pass? <==> found.Found? && HashOf(env, value) == found.found.password)
    ensures OldPasswordCheck(env, value, decoded).Pass? ==> OldPasswordCheck(env, value, decoded).write == NoWrite
    ensures var r := OldPasswordCheck(env, value, decoded); r.Fail? && r.msg.WithStatus? ==> r.msg.err.status == NOT_FOUND
  {
  }

  /** `verifiedUserValidator`, given a decoded payload, passes an error exactly
      when the user is not verified, with status `FORBIDDEN`, which is 401.
      Without one, it passes the `TypeError` of the destructuring. */
  lemma VerifiedGuardOutcomes(ctx: Context)
    ensures ctx.decodedAuthorization.Some? ==>
      (VerifiedUserGuard(ctx).Some? <==> ctx.decodedAuthorization.value.verify != Verified)
    ensures ctx.decodedAuthorization.Some? && ctx.decodedAuthorization.value.verify != Verified ==>
      VerifiedUserGuard(ctx) == Some(Typed(NewErrorWithStatus(Some(NotVerifiedMessage), FORBIDDEN)))
    ensures VerifiedUserGuard(ctx).Some? && VerifiedUserGuard(ctx).value.IsErrorWithStatus() ==>
      VerifiedUserGuard(ctx).value.StatusOf() == 401
    ensures ctx.decodedAuthorization.None? ==> VerifiedUserGuard(ctx) == Some(Untyped(DestructureError("verify")))
  {
  }

  /** Confirm-password mismatch, failed login and a taken email fail with
      plain messages, so `validate` aggregates them. Each fails exactly on its
      condition when the store answers. */
  lemma PlainFieldFailures(env: Env, value: string, confirm: Input, password: Input)
    ensures NeverThrowsStatus(ConfirmPasswordCheck(confirm, password))
    ensures ConfirmPasswordCheck(confirm, password).Fail? <==> !StrictEquals(confirm, password)
    ensures NeverThrowsStatus(LoginCheck(env, value, password))
    ensures env.db.fault.None? ==>
      (LoginCheck(env, value, password).Fail? <==>
       forall u :: u in env.db.users ==> !(u.email == value && u.password == HashOf(env, password)))
    ensures LoginCheck(env, value, password).Pass? ==>
      exists u :: u in env.db.users && u.email == value && u.password == HashOf(env, password) &&
                  LoginCheck(env, value, password).write == SetUser(Loaded(u))
    ensures NeverThrowsStatus(EmailNotTakenCheck(env, value))
    ensures env.db.fault.None? ==>
      (EmailNotTakenCheck(env, value).Fail? <==> exists u :: u in env.db.users && u.email == value)
  {
    var r := FindUser(env.db, ByCredentials(value, HashOf(env, password)));
    if r.Found? {
      assert r.found in env.db.users && Matches(r.found, ByCredentials(value, HashOf(env, password)));
    }
  }

  /** `forgotPasswordValidator`'s check never reports a missing user, whatever
      the store holds. */
  lemma ForgotEmailNeverFails(value: string)
    ensures ForgotEmailCheck(value).Pass?
    ensures ForgotEmailCheck(value).write.SetUser? && ForgotEmailCheck(value).write.slot.Pending?
  {
  }

  /** The follow/unfollow id check gives 404 'User not found' for an invalid
      id and for a missing user, and passes exactly when the user exists.
      Changing the password with an old password whose hash differs gives 404
      'Not match'. */
  lemma NotFoundOutcomes(env: Env, value: Input, oldPassword: Input, p: Payload)
    ensures ObjectIdOf(env.lib, value).None? ==> UserIdCheck(env, value) == Throw(Some("User not found"), 404)
    ensures ObjectIdOf(env.lib, value).Some? && FindUser(env.db, ById(ObjectIdOf(env.lib, value).value)).NotFound? ==>
      UserIdCheck(env, value) == Throw(Some("User not found"), 404)
    ensures UserIdCheck(env, value).Pass? <==>
      ObjectIdOf(env.lib, value).Some? && FindUser(env.db, ById(ObjectIdOf(env.lib, value).value)).Found?
    ensures ObjectIdOf(env.lib, Value(JString(p.userId))).Some? ==>
      var found := FindUser(env.db, ById(ObjectIdOf(env.lib, Value(JString(p.userId))).value));
      found.Found? && HashOf(env, oldPassword) != found.found.password ==>
        OldPasswordCheck(env, oldPassword, Some(p)) == Throw(Some("Not match"), 404)
  {
  }
}
