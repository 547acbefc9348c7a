/** The users router of src/routes/users.routes.ts: which middleware chain
    each method and path runs, Express's first-match dispatch, and the chain
    runner with `next()` / `next(err)` semantics. Controllers are the end of
    a chain; what they do is not part of this model. */
module Routes {
  import opened Errors
  import opened Store
  import opened Requests
  import opened Checks
  import opened Schema
  import opened Validation
  import opened Filter
  import opened ErrorHandler
  import Text

  datatype Method = Get | Post | Patch | Put

  /** One segment of a route path: a literal, or a `:name` parameter. */
  datatype Segment = Literal(text: string) | Param(name: string)

  datatype Controller =
    | LoginController
    | RegisterController
    | LogoutController
    | EmailVerifyController
    | ResendEmailVerifyController
    | ForgotPasswordController
    | ResetPasswordController
    | MeController
    | UpdateMeController
    | GetProfileController
    | FollowController
    | UnfollowController

  /** The validators users.middlewares.ts exports; each runs as
      `validate(schema)`. */
  datatype Validator =
    | LoginValidator
    | RegisterValidator
    | AccessTokenValidator
    | RefreshTokenValidator
    | EmailVerifyTokenValidator
    | ForgotPasswordValidator
    | VerifyForgotTokenValidator
    | ResetPasswordValidator
    | UpdateMeValidator
    | FollowValidator
    | UnfollowValidator
    | ChangePasswordValidator

  function SchemaOf(v: Validator): Schema {
    match v
    case LoginValidator => LoginSchema
    case RegisterValidator => RegisterSchema
    case AccessTokenValidator => AccessTokenSchema
    case RefreshTokenValidator => RefreshTokenSchema
    case EmailVerifyTokenValidator => EmailVerifyTokenSchema
    case ForgotPasswordValidator => ForgotPasswordSchema
    case VerifyForgotTokenValidator => VerifyForgotTokenSchema
    case ResetPasswordValidator => ResetPasswordSchema
    case UpdateMeValidator => UpdateMeSchema
    case FollowValidator => FollowSchema
    case UnfollowValidator => UnfollowSchema
    case ChangePasswordValidator => ChangePasswordSchema
  }

  /** A middleware of a chain. */
  datatype Stage =
    | Validated(validator: Validator)
    | VerifiedUser
    | FilterBody(keys: seq<string>)
    | Handle(controller: Controller)

  datatype Route = Route(verb: Method, path: seq<Segment>, stages: seq<Stage>)

  /** The keys `PATCH /me` keeps in the body. */
  const UpdateMeKeys: seq<string> :=
    ["name", "date_of_birth", "bio", "location", "website", "username", "cover_photo", "avatar"]

  /** The routes in registration order. */
  const UsersRouter: seq<Route> := [
    Route(Post, [Literal("login")], [Validated(LoginValidator), Handle(LoginController)]),
    Route(Post, [Literal("register")], [Validated(RegisterValidator), Handle(RegisterController)]),
    Route(Post, [Literal("logout")], [Validated(AccessTokenValidator), Validated(RefreshTokenValidator), Handle(LogoutController)]),
    Route(Post, [Literal("verify-email")], [Validated(EmailVerifyTokenValidator), Handle(EmailVerifyController)]),
    Route(Post, [Literal("resend-verify-email")], [Validated(AccessTokenValidator), Handle(ResendEmailVerifyController)]),
    Route(Post, [Literal("forgot-password")], [Validated(ForgotPasswordValidator), Handle(ForgotPasswordController)]),
    Route(Post, [Literal("verify-forgot-password")], [Validated(VerifyForgotTokenValidator), Handle(ForgotPasswordController)]),
    Route(Post, [Literal("reset-password")], [Validated(ResetPasswordValidator), Handle(ResetPasswordController)]),
    Route(Get, [Literal("me")], [Validated(AccessTokenValidator), Handle(MeController)]),
    Route(Patch, [Literal("me")], [Validated(AccessTokenValidator), VerifiedUser, Validated(UpdateMeValidator),
                                   FilterBody(UpdateMeKeys), Handle(UpdateMeController)]),
    Route(Get, [Param("username")], [Handle(GetProfileController)]),
    Route(Get, [Literal("follow")], [Validated(AccessTokenValidator), VerifiedUser, Validated(FollowValidator), Handle(FollowController)]),
    Route(Get, [Literal("follow"), Param("user_id")], [Validated(AccessTokenValidator), VerifiedUser, Validated(UnfollowValidator),
                                                      Handle(UnfollowController)]),
    Route(Put, [Literal("change-password")], [Validated(AccessTokenValidator), VerifiedUser, Validated(UnfollowValidator),
                                              Handle(UnfollowController)])]

  /** Whether a route path matches the request's path segments, and the
      parameters it binds (a parameter matches one non-empty segment). */
  function MatchPath(pattern: seq<Segment>, segments: seq<string>): (r: Option<map<string, Json>>)
    ensures r.Some? ==> |pattern| == |segments|
    ensures r.Some? ==> forall i :: 0 <= i < |pattern| && pattern[i].Literal? ==> segments[i] == pattern[i].text
    ensures r.Some? ==> forall i :: 0 <= i < |pattern| && pattern[i].Param? ==> pattern[i].name in r.value
    decreases |pattern|
  {
    if |pattern| != |segments| then None
    else if pattern == [] then Some(map[])
    else
      var rest := MatchPath(pattern[1..], segments[1..]);
      if rest.None? then None
      else match pattern[0]
        case Literal(text) => if text == segments[0] then rest else None
        case Param(name) => if segments[0] == "" then None else Some(rest.value[name := JString(segments[0])])
  }

  /** Whether the segments fit the pattern: the same length, the literal
      segments equal, and a non-empty segment for every parameter. */
  predicate Fits(pattern: seq<Segment>, segments: seq<string>) {
    |pattern| == |segments| &&
    (forall i :: 0 <= i < |pattern| && pattern[i].Literal? ==> segments[i] == pattern[i].text) &&
    (forall i :: 0 <= i < |pattern| && pattern[i].Param? ==> segments[i] != "")
  }

  /** Whether position `i` holds the first parameter with its name. */
  predicate FirstOfName(pattern: seq<Segment>, i: int)
    requires 0 <= i < |pattern| && pattern[i].Param?
  {
    forall j :: 0 <= j < i && pattern[j].Param? ==> pattern[j].name != pattern[i].name
  }

  /** The parameter names of a pattern. */
  function ParamNames(pattern: seq<Segment>): set<string> {
    set i | 0 <= i < |pattern| && pattern[i].Param? :: pattern[i].name
  }

  /** A path matches exactly when it fits the pattern; the match binds exactly
      the pattern's parameter names, each (at its first position) to the
      segment it stands for. */
  lemma {:induction false} MatchPathSpec(pattern: seq<Segment>, segments: seq<string>)
    ensures var r := MatchPath(pattern, segments);
      (r.Some? <==> Fits(pattern, segments)) &&
      (r.Some? ==> r.value.Keys == ParamNames(pattern)) &&
      (r.Some? ==> forall i :: 0 <= i < |pattern| && pattern[i].Param? && FirstOfName(pattern, i) ==>
                     r.value[pattern[i].name] == JString(segments[i]))
    decreases |pattern|
  {
    if |pattern| == |segments| && pattern != [] {
      var p, ss := pattern[1..], segments[1..];
      MatchPathSpec(p, ss);
      var rest := MatchPath(p, ss);
      FitsCons(pattern, segments);
      ParamNamesCons(pattern);
      var r := MatchPath(pattern, segments);
      if r.Some? {
        forall i | 0 <= i < |pattern| && pattern[i].Param? && FirstOfName(pattern, i)
          ensures r.value[pattern[i].name] == JString(segments[i])
        {
          if i > 0 {
            assert p[i - 1] == pattern[i];
            assert FirstOfName(p, i - 1) by {
              forall j | 0 <= j < i - 1 && p[j].Param? ensures p[j].name != p[i - 1].name {
                assert p[j] == pattern[j + 1];
              }
            }
            assert pattern[0].Param? ==> pattern[0].name != pattern[i].name;
          }
        }
      }
    }
  }

  lemma FitsCons(pattern: seq<Segment>, segments: seq<string>)
    requires |pattern| == |segments| && pattern != []
    ensures Fits(pattern, segments) <==>
      (match pattern[0]
       case Literal(text) => segments[0] == text
       case Param(_) => segments[0] != "") && Fits(pattern[1..], segments[1..])
  {
    var p, ss := pattern[1..], segments[1..];
    if Fits(p, ss) {
      assert forall i :: 1 <= i < |pattern| ==> pattern[i] == p[i - 1] && segments[i] == ss[i - 1];
    }
  }

  lemma ParamNamesCons(pattern: seq<Segment>)
    requires pattern != []
    ensures ParamNames(pattern) == (if pattern[0].Param? then {pattern[0].name} else {}) + ParamNames(pattern[1..])
  {
    var p := pattern[1..];
    forall n | n in ParamNames(p) ensures n in ParamNames(pattern) {
      var i :| 0 <= i < |p| && p[i].Param? && p[i].name == n;
      assert pattern[i + 1] == p[i];
    }
    forall n | n in ParamNames(pattern) ensures n in (if pattern[0].Param? then {pattern[0].name} else {}) + ParamNames(p) {
      var i :| 0 <= i < |pattern| && pattern[i].Param? && pattern[i].name == n;
      if i > 0 {
        assert p[i - 1] == pattern[i];
      }
    }
  }

  predicate Accepts(route: Route, verb: Method, segments: seq<string>) {
    route.verb == verb && MatchPath(route.path, segments).Some?
  }

  /** A route accepts a request exactly when the method is the route's and
      the path fits its pattern. */
  lemma AcceptsIffFits(route: Route, verb: Method, segments: seq<string>)
    ensures Accepts(route, verb, segments) <==> route.verb == verb && Fits(route.path, segments)
  {
    MatchPathSpec(route.path, segments);
  }

  /** Express's dispatch: the first route, in registration order, whose method
      and path match. */
  function Dispatch(routes: seq<Route>, verb: Method, segments: seq<string>): (r: Option<nat>)
    ensures r.Some? ==> r.value < |routes| && Accepts(routes[r.value], verb, segments) &&
                        forall j :: 0 <= j < r.value ==> !Accepts(routes[j], verb, segments)
    ensures r.None? <==> forall j :: 0 <= j < |routes| ==> !Accepts(routes[j], verb, segments)
  {
    if routes == [] then None
    else if Accepts(routes[0], verb, segments) then Some(0)
    else match Dispatch(routes[1..], verb, segments)
      case None => None
      case Some(k) => Some(k + 1)
  }

  /** How a chain ends: a controller receives the request, `next(err)` hands
      an error to the error handlers, or every middleware called `next()`. */
  datatype Outcome = Handled(controller: Controller, req: Request) | Stopped(err: Thrown) | Continued(req: Request)

  /** One middleware other than a controller: the request it passes on and
      its call to `next`. */
  function RunStage(env: Env, req: Request, stage: Stage): (Request, NextCall)
    requires !stage.Handle?
  {
    match stage
    case Validated(v) => ValidateStage(env, req, SchemaOf(v))
    case VerifiedUser =>
      (req, match VerifiedUserGuard(req.ctx) case None => Proceed case Some(e) => Forward(e))
    case FilterBody(keys) => (FilterStage(req, keys), Proceed)
  }

  /** The chain of a route: each middleware runs when the previous one called
      `next()`; `next(err)` skips the rest. */
  function RunChain(env: Env, req: Request, stages: seq<Stage>): Outcome
    decreases |stages|
  {
    if stages == [] then Continued(req)
    else if stages[0].Handle? then Handled(stages[0].controller, req)
    else
      var (r, call) := RunStage(env, req, stages[0]);
      if call.Forward? then Stopped(call.err) else RunChain(env, r, stages[1..])
  }

  /** A request to the router: the route chosen by dispatch runs with the
      parameters its path binds; None when no route matches. */
  function Serve(env: Env, routes: seq<Route>, verb: Method, segments: seq<string>, req: Request): Option<Outcome> {
    match Dispatch(routes, verb, segments)
    case None => None
    case Some(i) =>
      var params := MatchPath(routes[i].path, segments).value;
      Some(RunChain(env, req.(params := params), routes[i].stages))
  }

  // ---------------------------------------------------------------------------
  // Properties of the chain runner

  /** A chain that ran through all its middlewares continues into the next
      part of a longer chain; one that stopped stops the longer chain too. */
  lemma {:induction false} ChainAppend(env: Env, req: Request, a: seq<Stage>, b: seq<Stage>)
    ensures RunChain(env, req, a + b) ==
      match RunChain(env, req, a)
      case Continued(r) => RunChain(env, r, b)
      case other => other
    decreases |a|
  {
    if a == [] {
      assert a + b == b;
    } else {
      assert (a + b)[0] == a[0] && (a + b)[1..] == a[1..] + b;
      if !a[0].Handle? {
        ChainAppend(env, RunStage(env, req, a[0]).0, a[1..], b);
      }
    }
  }

  /** No middleware other than a controller writes `req.decoded_authorization`. */
  lemma StageKeepsDecoded(env: Env, req: Request, stage: Stage)
    requires !stage.Handle?
    ensures RunStage(env, req, stage).0.ctx.decodedAuthorization == req.ctx.decodedAuthorization
  {
    if stage.Validated? {
      FieldsShape(env, req, SchemaOf(stage.validator));
    }
  }

  /** On a request without `req.decoded_authorization`, a chain in which
      `verifiedUserValidator` comes before any controller never reaches a
      controller: it stops with an error, at the latest the guard's
      `TypeError`. */
  lemma {:induction false} GuardStopsChain(env: Env, req: Request, stages: seq<Stage>, g: nat)
    requires req.ctx.decodedAuthorization.None?
    requires g < |stages| && stages[g] == VerifiedUser
    requires forall k :: 0 <= k < g ==> !stages[k].Handle?
    ensures RunChain(env, req, stages).Stopped?
    decreases g
  {
    ChainStep(env, req, stages);
    if g == 0 {
      VerifiedGuardOutcomes(req.ctx);
    } else {
      StageKeepsDecoded(env, req, stages[0]);
      var (r, call) := RunStage(env, req, stages[0]);
      if call.Proceed? {
        GuardStopsChain(env, r, stages[1..], g - 1);
      }
    }
  }

  /** One middleware followed by the rest of a chain. */
  lemma ChainStep(env: Env, req: Request, stages: seq<Stage>)
    requires stages != [] && !stages[0].Handle?
    ensures var (r, call) := RunStage(env, req, stages[0]);
      RunChain(env, req, stages) == if call.Forward? then Stopped(call.err) else RunChain(env, r, stages[1..])
  {
  }

  /** The chain `accessTokenValidator, verifiedUserValidator, ...` on a request
      without `req.decoded_authorization`: the access guard's error if it
      fails, otherwise the guard's `TypeError`, which the error handler turns
      into a 500. */
  lemma AccessThenGuard(env: Env, req: Request, v: Validator, stages: seq<Stage>)
    requires req.ctx.decodedAuthorization.None?
    requires |stages| >= 2 && stages[0] == Validated(v) && stages[1] == VerifiedUser
    ensures var call := ValidateStage(env, req, SchemaOf(v)).1;
      RunChain(env, req, stages) ==
        if call.Forward? then Stopped(call.err) else Stopped(Untyped(DestructureError("verify")))
  {
    var (r, call) := ValidateStage(env, req, SchemaOf(v));
    ChainStep(env, req, stages);
    if call.Proceed? {
      FieldsShape(env, req, SchemaOf(v));
      VerifiedGuardOutcomes(r.ctx);
      ChainStep(env, r, stages[1..]);
    }
  }

  // ---------------------------------------------------------------------------
  // Properties of the route table

  /** The path segments of a request never contain a `/`, so `:username`
      matches `follow`: `GET /follow` is dispatched to the profile route,
      registered before it, with `username` bound to "follow". */
  lemma ProfileShadowsFollow()
    ensures Dispatch(UsersRouter, Get, ["follow"]) == Some(10)
    ensures MatchPath(UsersRouter[10].path, ["follow"]) == Some(map["username" := JString("follow")])
    ensures UsersRouter[11].verb == Get && UsersRouter[11].path == [Literal("follow")]
  {
    var segs := ["follow"];
    assert forall j :: 0 <= j < 10 && j != 8 ==> UsersRouter[j].verb != Get;
    assert MatchPath(UsersRouter[8].path, segs).None?;
    assert Accepts(UsersRouter[10], Get, segs);
  }

  /** The routes whose chains contain `verifiedUserValidator`: `PATCH /me`,
      `GET /follow`, `GET /follow/:user_id` and `PUT /change-password`. Each
      begins with the access guard followed by it. */
  lemma GuardedRoutes()
    ensures forall i :: 0 <= i < |UsersRouter| && VerifiedUser in UsersRouter[i].stages ==> i in {9, 11, 12, 13}
    ensures forall i :: i in {9, 11, 12, 13} ==>
      (|UsersRouter[i].stages| >= 2 &&
       UsersRouter[i].stages[0] == Validated(AccessTokenValidator) && UsersRouter[i].stages[1] == VerifiedUser)
  {
  }

  /** On a request as it arrives (no `req.decoded_authorization`; nothing
      writes it), no route guarded by `verifiedUserValidator` reaches its
      controller: `PATCH /me`, the follow routes and `PUT /change-password`
      always end in an error. */
  lemma GuardedRoutesNeverHandled(env: Env, i: nat, req: Request)
    requires i in {9, 11, 12, 13}
    requires req.ctx.decodedAuthorization.None?
    ensures var route := UsersRouter[i];
      var call := ValidateStage(env, req, SchemaOf(AccessTokenValidator)).1;
      RunChain(env, req, route.stages) ==
        if call.Forward? then Stopped(call.err) else Stopped(Untyped(DestructureError("verify")))
  {
    GuardedRoutes();
    AccessThenGuard(env, req, AccessTokenValidator, UsersRouter[i].stages);
  }

  /** `PUT /change-password` runs the unfollow checks and controller;
      `changePasswordValidator` is on no route. */
  lemma ChangePasswordWiring()
    ensures UsersRouter[13].verb == Put && UsersRouter[13].path == [Literal("change-password")]
    ensures UsersRouter[13].stages[2] == Validated(UnfollowValidator)
    ensures UsersRouter[13].stages[3] == Handle(UnfollowController)
    ensures forall i :: 0 <= i < |UsersRouter| ==> Validated(ChangePasswordValidator) !in UsersRouter[i].stages
  {
  }

  /** The unfollow checks read `req.params.followed_user_id`; without it, as on
      `GET /follow/:user_id` (which binds `user_id`) and `PUT
      /change-password` (which binds nothing), they always forward 404 'User
      not found'. */
  lemma UnfollowWithoutParam(env: Env, req: Request)
    requires "followed_user_id" !in req.params
    ensures ValidateStage(env, req, UnfollowSchema).1 ==
      Forward(Typed(ErrorWithStatus(Some("User not found"), NOT_FOUND)))
  {
    var spec := UnfollowSchema[0];
    var st := FieldState(req, Undefined, []);
    assert Field(req, Params, spec.path) == Undefined;
    assert spec.steps[1..] == [];
    var s1 := RunStep(env, spec, spec.steps[0], st);
    assert s1.errors == [FieldEntry(Undefined, WithStatus(ErrorWithStatus(Some("User not found"), NOT_FOUND)), "followed_user_id", Params)];
    SingleField(env, req, UnfollowSchema);
    var es := RunFields(env, req, UnfollowSchema).1;
    MappedDistinct(es, {});
  }

  /** `GET /follow/:user_id` binds `user_id` only. */
  lemma UnfollowRouteParams(id: string)
    requires id != ""
    ensures MatchPath(UsersRouter[12].path, ["follow", id]) == Some(map["user_id" := JString(id)])
  {
  }

  /** A chain whose first `validate` middleware reported one short-circuiting
      error and wrote nothing stops with that error; nothing after it runs. */
  lemma SingleErrorStops(env: Env, req: Request, stages: seq<Stage>, e: FieldEntry)
    requires stages != [] && stages[0].Validated?
    requires RunFields(env, req, SchemaOf(stages[0].validator)) == (req, [e]) && ShortCircuits(e.msg)
    ensures RunChain(env, req, stages) == Stopped(Typed(e.msg.err))
  {
    MappedDistinct([e], {});
    ChainStep(env, req, stages);
  }

  /** `POST /logout` without an `Authorization` header stops at the access
      guard with 401 `ACCESS_TOKEN_IS_REQUIRED`; the refresh-token check after
      it does not run. */
  lemma LogoutWithoutAuthorization(env: Env, req: Request, stages: seq<Stage>)
    requires stages == UsersRouter[2].stages
    requires "authorization" !in req.headers
    ensures stages[1] == Validated(RefreshTokenValidator)
    ensures RunChain(env, req, stages) ==
      Stopped(Typed(ErrorWithStatus(Some("Access token is required"), UNAUTHORIZED)))
  {
    assert stages[0] == Validated(AccessTokenValidator);
    AccessMissingStops(env, req, stages);
  }

  /** Any chain that starts with the access guard stops there, with 401
      `ACCESS_TOKEN_IS_REQUIRED`, when the `Authorization` header is absent. */
  lemma AccessMissingStops(env: Env, req: Request, stages: seq<Stage>)
    requires stages != [] && stages[0] == Validated(AccessTokenValidator)
    requires "authorization" !in req.headers
    ensures RunChain(env, req, stages) ==
      Stopped(Typed(ErrorWithStatus(Some("Access token is required"), UNAUTHORIZED)))
  {
    AccessTokenMissing(env, req);
    var e := FieldEntry(Value(JString("")), WithStatus(ErrorWithStatus(Some("Access token is required"), 401)), "Authorization", Headers);
    SingleErrorStops(env, req, stages, e);
  }

  /** A chain made of one `validate` middleware and a controller reaches the
      controller exactly when the schema reported nothing, and otherwise stops
      with what `validate` forwarded. */
  lemma ValidatedThenHandled(env: Env, req: Request, v: Validator, stages: seq<Stage>)
    requires |stages| == 2 && stages[0] == Validated(v) && stages[1].Handle?
    ensures var (r, call) := ValidateStage(env, req, SchemaOf(v));
      RunChain(env, req, stages) == if call.Forward? then Stopped(call.err) else Handled(stages[1].controller, r)
  {
    ChainStep(env, req, stages);
  }

  /** A chain made of one `validate` middleware whose schema reports only
      plain messages, then a controller, reaches the controller or stops with
      one `EntityError` (422). */
  lemma PlainValidatedThenHandled(env: Env, req: Request, stages: seq<Stage>)
    requires |stages| == 2 && stages[0].Validated? && stages[1].Handle?
    requires PlainSchema(SchemaOf(stages[0].validator))
    ensures var out := RunChain(env, req, stages);
      (out.Handled? && out.controller == stages[1].controller) ||
      (out.Stopped? && out.err.Entity? && out.err.entity.Status() == 422)
  {
    PlainStage(env, req, SchemaOf(stages[0].validator));
    ChainStep(env, req, stages);
  }

  /** `POST /register` runs its schema through `validate`, so it reaches the
      controller or forwards one `EntityError` (422), never anything else. */
  lemma RegisterOutcomes(env: Env, req: Request, stages: seq<Stage>)
    requires stages == UsersRouter[1].stages
    ensures var out := RunChain(env, req, stages);
      (out.Handled? && out.controller == RegisterController) ||
      (out.Stopped? && out.err.Entity? && out.err.entity.Status() == 422)
  {
    RegisterIsPlain();
    assert stages[0] == Validated(RegisterValidator) && stages[1] == Handle(RegisterController);
    PlainValidatedThenHandled(env, req, stages);
  }

  /** `POST /login` likewise reaches the controller or forwards one
      `EntityError` (422). */
  lemma LoginOutcomes(env: Env, req: Request, stages: seq<Stage>)
    requires stages == UsersRouter[0].stages
    ensures var out := RunChain(env, req, stages);
      (out.Handled? && out.controller == LoginController) ||
      (out.Stopped? && out.err.Entity? && out.err.entity.Status() == 422)
  {
    LoginIsPlain();
    assert stages[0] == Validated(LoginValidator) && stages[1] == Handle(LoginController);
    PlainValidatedThenHandled(env, req, stages);
  }

  /** `GET /me` runs only the access guard before its controller: the
      controller receives the request exactly when the access schema reported
      nothing; `verifiedUserValidator` is not on the route. */
  lemma GetMeChain(env: Env, req: Request, stages: seq<Stage>)
    requires stages == UsersRouter[8].stages
    ensures VerifiedUser !in stages && |stages| == 2 && stages[0] == Validated(AccessTokenValidator)
    ensures stages[1] == Handle(MeController)
    ensures var (r, call) := ValidateStage(env, req, SchemaOf(stages[0].validator));
      RunChain(env, req, stages) == if call.Forward? then Stopped(call.err) else Handled(stages[1].controller, r)
  {
    ValidatedThenHandled(env, req, stages[0].validator, stages);
  }

  /** `POST /resend-verify-email` likewise needs only the access guard. */
  lemma ResendVerifyEmailChain(env: Env, req: Request, stages: seq<Stage>)
    requires stages == UsersRouter[4].stages
    ensures VerifiedUser !in stages && |stages| == 2 && stages[0] == Validated(AccessTokenValidator)
    ensures stages[1] == Handle(ResendEmailVerifyController)
    ensures var (r, call) := ValidateStage(env, req, SchemaOf(stages[0].validator));
      RunChain(env, req, stages) == if call.Forward? then Stopped(call.err) else Handled(stages[1].controller, r)
  {
    ValidatedThenHandled(env, req, stages[0].validator, stages);
  }

  /** A chain `validate`, filter, controller: the filter runs only once the
      schema reported nothing, and the controller then sees a body holding
      only the listed keys, each with the value the schema left. */
  lemma ValidateThenFilter(env: Env, req: Request, v: Validator, keys: seq<string>, c: Controller, stages: seq<Stage>)
    requires stages == [Validated(v), FilterBody(keys), Handle(c)]
    ensures var (r, call) := ValidateStage(env, req, SchemaOf(v));
      var out := RunChain(env, req, stages);
      (call.Forward? ==> out == Stopped(call.err)) &&
      (call.Proceed? ==> out == Handled(c, FilterStage(r, keys)) &&
                         (forall k :: k in out.req.body ==> k in keys && k in r.body && out.req.body[k] == r.body[k]))
  {
    ChainStep(env, req, stages);
    var r := ValidateStage(env, req, SchemaOf(v)).0;
    assert stages[1..][1..] == [Handle(c)];
    ChainStep(env, r, stages[1..]);
  }

  /** `PATCH /me` after its two guards: `updateMeValidator`, then the filter
      to the eight profile keys, then the controller. */
  lemma UpdateMeTail(stages: seq<Stage>)
    requires stages == UsersRouter[9].stages
    ensures stages[..2] == [Validated(AccessTokenValidator), VerifiedUser]
    ensures stages[2..] == [Validated(UpdateMeValidator), FilterBody(UpdateMeKeys), Handle(UpdateMeController)]
    ensures |UpdateMeKeys| == 8 && 
      forall k :: k in UpdateMeKeys <==> k in {"name", "date_of_birth", "bio", "location", "website", "username", "cover_photo", "avatar"}
  {
  }

  /** What the error handler would answer for the guard's `TypeError`: 500,
      with the message under `messsage` and in `errorInfo`, and no `stack`. */
  lemma GuardTypeErrorResponse()
    ensures var o := DestructureError("verify");
      var res := ErrorResponse(Untyped(o));
      res.status == INTERNAL_SERVER_ERROR && res.body["messsage"] == o.own["message"] &&
      res.body["errorInfo"] == JObject(map["message" := o.own["message"]])
  {
    var o := DestructureError("verify");
    UntypedResponse(o);
    var info := ErrorResponse(Untyped(o)).body["errorInfo"].fields;
    assert info.Keys == {"message"};
    assert info == map["message" := o.own["message"]];
  }
}
