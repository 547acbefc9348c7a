/** The Express request as the middlewares see it: the three locations fields
    are read from, and the context properties the guards attach to it. The
    request is a value that every stage returns updated. */
module Requests {
  import opened Errors
  import opened Store
  import Text

  /** What `req.user` holds: an awaited user, or the unawaited promise of a
      lookup. */
  datatype UserSlot = Loaded(user: User) | Pending(query: Query)

  /** The context properties. `decodeAuthorization` is what the access guard
      writes (`req.decode_authorization`); `decodedAuthorization` is what the
      verified guard and the change-password check read
      (`req.decoded_authorization`). */
  datatype Context = Context(
    user: Option<UserSlot>,
    decodeAuthorization: Option<Payload>,
    decodedAuthorization: Option<Payload>,
    decodeRefreshToken: Option<Payload>,
    decodedEmailVerifyToken: Option<Payload>,
    decodeForgotToken: Option<Payload>)

  /** One write a passing check makes to the context. No check writes
      `decodedAuthorization`. */
  datatype Write =
    | NoWrite
    | SetUser(slot: UserSlot)
    | SetDecodeAuthorization(p: Payload)
    | SetDecodeRefreshToken(p: Payload)
    | SetDecodedEmailVerifyToken(p: Payload)
    | SetDecodeForgotToken(p: Payload)

  function ApplyWrite(ctx: Context, w: Write): (r: Context)
    ensures r.decodedAuthorization == ctx.decodedAuthorization
    ensures w.NoWrite? ==> r == ctx
  {
    match w
    case NoWrite => ctx
    case SetUser(s) => ctx.(user := Some(s))
    case SetDecodeAuthorization(p) => ctx.(decodeAuthorization := Some(p))
    case SetDecodeRefreshToken(p) => ctx.(decodeRefreshToken := Some(p))
    case SetDecodedEmailVerifyToken(p) => ctx.(decodedEmailVerifyToken := Some(p))
    case SetDecodeForgotToken(p) => ctx.(decodeForgotToken := Some(p))
  }

  /** Header names are stored lower-cased. */
  datatype Request = Request(
    headers: map<string, Json>,
    body: map<string, Json>,
    params: map<string, Json>,
    ctx: Context)

  function Location(req: Request, loc: Location): map<string, Json> {
    match loc
    case Body => req.body
    case Headers => req.headers
    case Params => req.params
  }

  /** The key a field path is stored under in a location. */
  function KeyOf(loc: Location, path: string): string {
    if loc == Headers then Text.LowerAscii(path) else path
  }

  /** `req[loc][path]`. */
  function Field(req: Request, loc: Location, path: string): Input {
    var m := Location(req, loc);
    var k := KeyOf(loc, path);
    if k in m then Value(m[k]) else Undefined
  }

  /** `req[loc][path] = v`; nothing else changes. */
  function SetField(req: Request, loc: Location, path: string, v: Json): (r: Request)
    ensures Field(r, loc, path) == Value(v)
    ensures r.ctx == req.ctx
    ensures forall l :: l != loc ==> Location(r, l) == Location(req, l)
    ensures forall k :: k != KeyOf(loc, path) ==>
              (k in Location(r, loc) <==> k in Location(req, loc)) &&
              (k in Location(req, loc) ==> Location(r, loc)[k] == Location(req, loc)[k])
  {
    var k := KeyOf(loc, path);
    match loc
    case Body => req.(body := req.body[k := v])
    case Headers => req.(headers := req.headers[k := v])
    case Params => req.(params := req.params[k := v])
  }

  /** The `Authorization` header is stored as `authorization`. */
  lemma AuthorizationKey(path: string)
    requires path == "Authorization"
    ensures KeyOf(Headers, path) == "authorization"
  {
    var k := KeyOf(Headers, path);
    assert |k| == |"authorization"|;
    forall i | 0 <= i < |k| ensures k[i] == "authorization"[i] {
      assert k[i] == Text.LowerChar(path[i]);
    }
  }
}
