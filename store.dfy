/** What the middlewares consult outside the request: the document store
    (the `users` and `refreshTokens` collections), the token verifier, the
    password hasher and the validator library's built-in predicates. All of
    them are parameters of the model. */
module Store {
  import opened Errors

  /** `UserVerifyState`. */
  datatype VerifyState = Unverified | Verified | Banned

  /** The fields of a stored user that the checks read. */
  datatype User = User(
    id: string,
    email: string,
    password: string,
    username: string,
    verify: VerifyState,
    forgotPasswordToken: string)

  /** A stored refresh-token record. */
  datatype RefreshToken = RefreshToken(token: string, userId: string)

  /** The document store: the two collections in their natural order, and
      `fault` when every query rejects (with that message). */
  datatype Db = Db(users: seq<User>, refreshTokens: seq<RefreshToken>, fault: Option<string>)

  /** The `findOne` filters the middlewares use on `users`. */
  datatype Query =
    | ById(id: string)
    | ByEmail(email: string)
    | ByCredentials(email: string, passwordHash: string)
    | ByUsername(username: string)

  predicate Matches(u: User, q: Query) {
    match q
    case ById(id) => u.id == id
    case ByEmail(e) => u.email == e
    case ByCredentials(e, h) => u.email == e && u.password == h
    case ByUsername(n) => u.username == n
  }

  /** The outcome of an awaited `findOne`. */
  datatype Lookup<T> = Found(found: T) | NotFound | Failed(message: string)

  /** The first user in store order that matches the filter. */
  function FirstUser(users: seq<User>, q: Query): (r: Option<nat>)
    ensures r.Some? ==> r.value < |users| && Matches(users[r.value], q) &&
                        forall j :: 0 <= j < r.value ==> !Matches(users[j], q)
    ensures r.None? <==> forall j :: 0 <= j < |users| ==> !Matches(users[j], q)
  {
    if |users| == 0 then None
    else if Matches(users[0], q) then Some(0)
    else match FirstUser(users[1..], q)
      case None => None
      case Some(k) => Some(k + 1)
  }

  /** `databaseService.users.findOne(q)`, awaited. */
  function FindUser(db: Db, q: Query): (r: Lookup<User>)
    ensures db.fault.Some? ==> r == Failed(db.fault.value)
    ensures r.Found? ==> r.found in db.users && Matches(r.found, q)
    ensures db.fault.None? ==> (r.NotFound? <==> forall u :: u in db.users ==> !Matches(u, q))
  {
    if db.fault.Some? then Failed(db.fault.value)
    else match FirstUser(db.users, q)
      case None => NotFound
      case Some(k) => Found(db.users[k])
  }

  /** `databaseService.refreshTokens.findOne({ token })`, awaited. */
  function FindRefreshToken(db: Db, token: string): (r: Lookup<RefreshToken>)
    ensures db.fault.Some? ==> r == Failed(db.fault.value)
    ensures r.Found? ==> r.found in db.refreshTokens && r.found.token == token
    ensures db.fault.None? ==> (r.NotFound? <==> forall t :: t in db.refreshTokens ==> t.token != token)
  {
    if db.fault.Some? then Failed(db.fault.value)
    else FirstToken(db.refreshTokens, token)
  }

  function FirstToken(records: seq<RefreshToken>, token: string): (r: Lookup<RefreshToken>)
    ensures r.Found? ==> r.found in records && r.found.token == token
    ensures r.NotFound? <==> forall t :: t in records ==> t.token != token
    ensures !r.Failed?
  {
    if |records| == 0 then NotFound
    else if records[0].token == token then Found(records[0])
    else
      assert forall t :: t in records ==> t == records[0] || t in records[1..];
      FirstToken(records[1..], token)
  }

  /** The decoded claims of a signed token. */
  datatype Payload = Payload(userId: string, verify: VerifyState)

  /** The secret a token is checked against (each token kind has its own). */
  datatype Secret = AccessTokenSecret | RefreshTokenSecret | EmailVerifyTokenSecret | ForgotPasswordTokenSecret

  /** The result of `verifyToken`: the decoded payload, or a rejection of the
      `JsonWebTokenError` class (an expired token included). */
  datatype VerifyOutcome = Decoded(payload: Payload) | JwtError(message: string)

  /** The validator library's built-in predicates and the ObjectId conversion,
      left uninterpreted. */
  datatype Lib = Lib(
    isEmail: string -> bool,
    isISO8601: string -> bool,
    isLowercase: char -> bool,
    isUppercase: char -> bool,
    isNumber: char -> bool,
    isSymbol: char -> bool,
    matchesUsernamePattern: string -> bool,
    objectId: Json -> Option<string>)

  /** The environment of one request: the library, `verifyToken` keyed by
      secret, `hasPassword` (SHA-256 of the password and the server-wide salt)
      and the store. */
  datatype Env = Env(
    lib: Lib,
    verify: (Secret, string) -> VerifyOutcome,
    hash: string -> string,
    db: Db)

  /** `ObjectId.isValid(value)` together with `new ObjectId(value)`: the id a
      field value denotes, if any. `undefined` is never a valid id. */
  function ObjectIdOf(lib: Lib, v: Input): (r: Option<string>)
    ensures v.Undefined? ==> r.None?
  {
    match v
    case Undefined => None
    case Value(j) => lib.objectId(j)
  }
}
