/** The declarative validation schemas of src/middlewares/users.middlewares.ts
    and the engine that runs them the way express-validator's `checkSchema`
    does: fields one after another in schema order, each field's steps in
    order (sanitizer or rule), every step running, and the field's first
    failing rule being the error reported for it. */
module Schema {
  import opened Errors
  import opened Store
  import opened Requests
  import opened Checks
  import Text

  /** The options of `isStrongPassword`. */
  datatype StrongOptions = StrongOptions(
    minLength: nat, minLowercase: nat, minUppercase: nat, minNumbers: nat, minSymbols: nat)

  /** The one option set the schemas use. */
  const PasswordStrength := StrongOptions(1, 1, 1, 1, 1)

  /** The custom checks a schema can name. */
  datatype CustomCheck =
    | AccessToken
    | RefreshToken
    | EmailVerifyToken
    | ForgotToken(attach: bool)
    | ConfirmPassword
    | UserId
    | Login
    | EmailNotTaken
    | ForgotEmail
    | Username
    | OldPassword

  datatype Rule =
    | NotEmpty
    | IsString
    | IsLength(min: nat, max: nat)
    | IsStrongPassword(options: StrongOptions)
    | IsEmail
    | IsISO8601
    | Custom(check: CustomCheck)

  /** One key of a field's schema: the `trim` sanitizer, or a rule with its
      `errorMessage` (None when absent or undefined). */
  datatype Step = Trim | Check(rule: Rule, errorMessage: Option<string>)

  datatype FieldSpec = FieldSpec(path: string, location: Location, optional: bool, steps: seq<Step>)

  type Schema = seq<FieldSpec>

  /** The message express-validator records when a rule has no message. */
  const DefaultMessage := "Invalid value"

  /** express-validator's `toString`, applied before built-in rules and
      sanitizers. */
  function ToString(v: Input): string {
    match v
    case Undefined => ""
    case Value(JString(s)) => s
    case Value(JNumber(n)) => Text.IntToString(n)
    case Value(JBool(b)) => if b then "true" else "false"
    case Value(JNull) => ""
    case Value(JObject(_)) => "[object Object]"
  }

  /** The number of characters of `s` in a class. */
  function Count(s: string, p: char -> bool): nat {
    if s == [] then 0 else (if p(s[0]) then 1 else 0) + Count(s[1..], p)
  }

  lemma {:induction false} CountPositive(s: string, p: char -> bool)
    ensures Count(s, p) >= 1 <==> exists i :: 0 <= i < |s| && p(s[i])
  {
    if s != [] {
      CountPositive(s[1..], p);
      if !p(s[0]) && exists i :: 0 <= i < |s| && p(s[i]) {
        var i :| 0 <= i < |s| && p(s[i]);
        assert i > 0 && s[1..][i - 1] == s[i];
      }
      if exists i :: 0 <= i < |s[1..]| && p(s[1..][i]) {
        var i :| 0 <= i < |s[1..]| && p(s[1..][i]);
        assert s[i + 1] == s[1..][i];
      }
    }
  }

  /** validator.js `isStrongPassword` (without the score). */
  predicate StrongPassword(lib: Lib, s: string, o: StrongOptions) {
    |s| >= o.minLength &&
    Count(s, lib.isLowercase) >= o.minLowercase &&
    Count(s, lib.isUppercase) >= o.minUppercase &&
    Count(s, lib.isNumber) >= o.minNumbers &&
    Count(s, lib.isSymbol) >= o.minSymbols
  }

  /** Whether a built-in rule holds of a value. */
  predicate Holds(lib: Lib, rule: Rule, v: Input) {
    match rule
    case NotEmpty => ToString(v) != ""
    case IsString => v.Value? && v.json.JString?
    case IsLength(min, max) => min <= |ToString(v)| <= max
    case IsStrongPassword(o) => StrongPassword(lib, ToString(v), o)
    case IsEmail => lib.isEmail(ToString(v))
    case IsISO8601 => lib.isISO8601(ToString(v))
    case Custom(_) => true
  }

  /** The custom check of a step, on the current value and request. Checks
      whose schema trims first receive a string. */
  function RunCustom(env: Env, req: Request, c: CustomCheck, v: Input): CheckResult {
    match c
    case AccessToken => AccessTokenCheck(env, ToString(v))
    case RefreshToken => RefreshTokenCheck(env, ToString(v))
    case EmailVerifyToken => EmailVerifyTokenCheck(env, ToString(v))
    case ForgotToken(attach) => ForgotTokenCheck(env, ToString(v), attach)
    case ConfirmPassword => ConfirmPasswordCheck(v, Field(req, Body, "password"))
    case UserId => UserIdCheck(env, v)
    case Login => LoginCheck(env, ToString(v), Field(req, Body, "password"))
    case EmailNotTaken => EmailNotTakenCheck(env, ToString(v))
    case ForgotEmail => ForgotEmailCheck(ToString(v))
    case Username => UsernameCheck(env, ToString(v))
    case OldPassword => OldPasswordCheck(env, v, req.ctx.decodedAuthorization)
  }

  /** The msg recorded for a failed custom check: the step's message if it has
      one, else the thrown value, with an empty message replaced by the default. */
  function CustomMsg(errorMessage: Option<string>, m: Msg): Msg {
    if errorMessage.Some? then Plain(errorMessage.value)
    else if m == Plain("") then Plain(DefaultMessage)
    else m
  }

  /** The state of one field's run: the request, the current value and the
      errors recorded so far. */
  datatype FieldState = FieldState(req: Request, value: Input, errors: seq<FieldEntry>)

  function RunStep(env: Env, spec: FieldSpec, step: Step, st: FieldState): FieldState {
    match step
    case Trim =>
      var t := JString(Text.Trim(ToString(st.value)));
      var req := if Field(st.req, spec.location, spec.path).Value?
                 then SetField(st.req, spec.location, spec.path, t) else st.req;
      FieldState(req, Value(t), st.errors)
    case Check(Custom(c), em) =>
      (match RunCustom(env, st.req, c, st.value)
       case Pass(w) => st.(req := st.req.(ctx := ApplyWrite(st.req.ctx, w)))
       case Fail(m) => st.(errors := st.errors + [FieldEntry(st.value, CustomMsg(em, m), spec.path, spec.location)]))
    case Check(rule, em) =>
      if Holds(env.lib, rule, st.value) then st
      else st.(errors := st.errors + [FieldEntry(st.value, Plain(if em.Some? then em.value else DefaultMessage), spec.path, spec.location)])
  }

  function RunSteps(env: Env, spec: FieldSpec, steps: seq<Step>, st: FieldState): FieldState
    decreases |steps|
  {
    if steps == [] then st else RunSteps(env, spec, steps[1..], RunStep(env, spec, steps[0], st))
  }

  /** One field: skipped when optional and undefined; otherwise its steps run
      and its first error, if any, is reported. */
  function RunField(env: Env, req: Request, spec: FieldSpec): (Request, Option<FieldEntry>) {
    var v := Field(req, spec.location, spec.path);
    if spec.optional && v.Undefined? then (req, None)
    else
      var st := RunSteps(env, spec, spec.steps, FieldState(req, v, []));
      (st.req, if |st.errors| == 0 then None else Some(st.errors[0]))
  }

  /** `schema.run(req)` followed by `validationResult(req).mapped()`: the
      request after sanitizers and checks, and the reported errors in schema
      order. */
  function RunFields(env: Env, req: Request, fields: Schema): (Request, seq<FieldEntry>)
    decreases |fields|
  {
    if fields == [] then (req, [])
    else
      var (r1, e) := RunField(env, req, fields[0]);
      var (r2, es) := RunFields(env, r1, fields[1..]);
      (r2, (if e.Some? then [e.value] else []) + es)
  }

  // ---------------------------------------------------------------------------
  // The schemas

  const PasswordMessage := "Password must be at least 6 characters long and containt at least"

  /** `passwordSchema`. */
  const PasswordSteps: seq<Step> := [
    Check(NotEmpty, None),
    Check(IsString, None),
    Check(IsLength(5, 50), None),
    Check(IsStrongPassword(PasswordStrength), Some(PasswordMessage))]

  /** `confirmPasswordSchema`: the password rules, then equality with
      `req.body.password`. */
  const ConfirmPasswordSteps: seq<Step> := PasswordSteps + [Check(Custom(ConfirmPassword), None)]

  /** `nameSchema`. */
  const NameSteps: seq<Step> := [Check(NotEmpty, None), Check(IsString, None), Check(IsLength(1, 256), None), Trim]

  /** `forgotPasswordSchema`. */
  const ForgotPasswordTokenSteps: seq<Step> := [Trim, Check(Custom(ForgotToken(true)), None)]

  /** The optional profile text fields of `updateMeValidator`. */
  function ProfileText(path: string): FieldSpec {
    FieldSpec(path, Body, true, [
      Check(IsString, Some("Bio is string")), Trim,
      Check(IsLength(1, 200), Some("Bio must be 1 to 200 characters"))])
  }

  function UserIdField(loc: Location): FieldSpec {
    FieldSpec("followed_user_id", loc, false, [Check(Custom(UserId), None)])
  }

  const LoginSchema: Schema := [
    FieldSpec("email", Body, false, [
      Check(IsEmail, UserMessage(EmailIsInvalid)), Trim, Check(Custom(Login), None)]),
    FieldSpec("password", Body, false, [
      Check(NotEmpty, UserMessage(PasswordIsRequired)),
      Check(IsString, None),
      Check(IsLength(5, 50), UserMessage(PasswordLengthMustBeFrom6To50)),
      Check(IsStrongPassword(PasswordStrength), UserMessage(PasswordMustBeAStrong))])]

  const RegisterSchema: Schema := [
    FieldSpec("name", Body, false, NameSteps),
    FieldSpec("email", Body, false, [
      Check(NotEmpty, None), Check(IsEmail, None), Trim, Check(Custom(EmailNotTaken), None)]),
    FieldSpec("password", Body, false, PasswordSteps),
    FieldSpec("confirm_password", Body, false, ConfirmPasswordSteps),
    FieldSpec("date_of_birth", Body, false, [Check(IsISO8601, None)])]

  const AccessTokenSchema: Schema := [
    FieldSpec("Authorization", Headers, false, [Trim, Check(Custom(AccessToken), None)])]

  const RefreshTokenSchema: Schema := [
    FieldSpec("refresh_token", Body, false, [Trim, Check(Custom(CustomCheck.RefreshToken), None)])]

  const EmailVerifyTokenSchema: Schema := [
    FieldSpec("email_verify_token", Body, false, [
      Check(NotEmpty, UserMessage(EmailVerifyTokenIsRequired)), Trim, Check(Custom(EmailVerifyToken), None)])]

  const ForgotPasswordSchema: Schema := [
    FieldSpec("email", Body, false, [
      Check(NotEmpty, None), Check(IsEmail, None), Trim, Check(Custom(ForgotEmail), None)])]

  const VerifyForgotTokenSchema: Schema := [
    FieldSpec("forgot_password_token", Body, false, [Trim, Check(Custom(ForgotToken(false)), None)])]

  const ResetPasswordSchema: Schema := [
    FieldSpec("password", Body, false, PasswordSteps),
    FieldSpec("confirm_password", Body, false, ConfirmPasswordSteps),
    FieldSpec("forgot_password_token", Body, false, ForgotPasswordTokenSteps)]

  const UpdateMeSchema: Schema := [
    FieldSpec("name", Body, true, [Check(IsString, None), Check(IsLength(1, 256), None), Trim]),
    FieldSpec("date_of_birth", Body, true, [Check(IsISO8601, None)]),
    ProfileText("bio"),
    ProfileText("location"),
    ProfileText("website"),
    FieldSpec("username", Body, true, [Check(IsString, Some("Bio is string")), Trim, Check(Custom(Username), None)]),
    ProfileText("avatar"),
    ProfileText("cover_photo")]

  const FollowSchema: Schema := [UserIdField(Body)]

  const UnfollowSchema: Schema := [UserIdField(Params)]

  const ChangePasswordSchema: Schema := [
    FieldSpec("old_password", Body, false, PasswordSteps + [Check(Custom(OldPassword), None)]),
    FieldSpec("password", Body, false, PasswordSteps),
    FieldSpec("confirm_password", Body, false, ConfirmPasswordSteps)]

  // ---------------------------------------------------------------------------
  // Properties of the engine and the schemas

  /** The password rule set, stated independently: a string of 5 to 50
      characters with a lowercase letter, an uppercase letter, a digit and a
      symbol. */
  predicate AcceptablePassword(lib: Lib, v: Input) {
    v.Value? && v.json.JString? &&
    var s := v.json.s;
    5 <= |s| <= 50 &&
    (exists i :: 0 <= i < |s| && lib.isLowercase(s[i])) &&
    (exists i :: 0 <= i < |s| && lib.isUppercase(s[i])) &&
    (exists i :: 0 <= i < |s| && lib.isNumber(s[i])) &&
    (exists i :: 0 <= i < |s| && lib.isSymbol(s[i]))
  }

  lemma StrongPasswordAtLeastOne(lib: Lib, s: string)
    ensures StrongPassword(lib, s, PasswordStrength) <==>
      |s| >= 1 &&
      (exists i :: 0 <= i < |s| && lib.isLowercase(s[i])) &&
      (exists i :: 0 <= i < |s| && lib.isUppercase(s[i])) &&
      (exists i :: 0 <= i < |s| && lib.isNumber(s[i])) &&
      (exists i :: 0 <= i < |s| && lib.isSymbol(s[i]))
  {
    CountPositive(s, lib.isLowercase);
    CountPositive(s, lib.isUppercase);
    CountPositive(s, lib.isNumber);
    CountPositive(s, lib.isSymbol);
  }

  /** Built-in rules never touch the request or the value. */
  lemma RulesOnlyRecord(env: Env, spec: FieldSpec, rule: Rule, em: Option<string>, st: FieldState)
    requires !rule.Custom?
    ensures RunStep(env, spec, Check(rule, em), st).req == st.req
    ensures RunStep(env, spec, Check(rule, em), st).value == st.value
    ensures Holds(env.lib, rule, st.value) <==> RunStep(env, spec, Check(rule, em), st).errors == st.errors
  {
  }

  /** The passwordSchema steps record no error exactly for an acceptable
      password. */
  lemma PasswordRules(env: Env, spec: FieldSpec, st: FieldState)
    ensures RunSteps(env, spec, PasswordSteps, st).errors == st.errors <==> AcceptablePassword(env.lib, st.value)
    ensures RunSteps(env, spec, PasswordSteps, st).req == st.req
    ensures RunSteps(env, spec, PasswordSteps, st).value == st.value
  {
    var v := st.value;
    StrongPasswordAtLeastOne(env.lib, ToString(v));
    var s1 := RunStep(env, spec, PasswordSteps[0], st);
    var s2 := RunStep(env, spec, PasswordSteps[1], s1);
    var s3 := RunStep(env, spec, PasswordSteps[2], s2);
    var s4 := RunStep(env, spec, PasswordSteps[3], s3);
    assert RunSteps(env, spec, PasswordSteps[3..], s3) == s4;
    assert RunSteps(env, spec, PasswordSteps[2..], s2) == s4 by { assert PasswordSteps[2..][1..] == PasswordSteps[3..]; }
    assert RunSteps(env, spec, PasswordSteps[1..], s1) == s4 by { assert PasswordSteps[1..][1..] == PasswordSteps[2..]; }
    assert RunSteps(env, spec, PasswordSteps, st) == s4;
    assert |s4.errors| >= |s3.errors| >= |s2.errors| >= |s1.errors| >= |st.errors|;
  }

  /** The name rule set, stated independently: a string of 1 to 256
      characters. */
  predicate AcceptableName(v: Input) {
    v.Value? && v.json.JString? && 1 <= |v.json.s| <= 256
  }

  /** Whether `next` is `prev` followed only by "Invalid value" errors under
      `path`. */
  predicate AppendsDefault(prev: seq<FieldEntry>, next: seq<FieldEntry>, path: string) {
    Extends(prev, next, path) &&
    forall i :: |prev| <= i < |next| ==> next[i].msg == Plain(DefaultMessage)
  }

  lemma AppendsDefaultTrans(a: seq<FieldEntry>, b: seq<FieldEntry>, c: seq<FieldEntry>, path: string)
    requires AppendsDefault(a, b, path) && AppendsDefault(b, c, path)
    ensures AppendsDefault(a, c, path)
  {
    ExtendsTrans(a, b, c, path);
    forall i | |a| <= i < |c| ensures c[i].msg == Plain(DefaultMessage) {
      if i < |b| {
        assert c[i] == c[..|b|][i];
      }
    }
  }

  /** A built-in rule without its own message keeps the request and the value,
      and on failure records "Invalid value" under the field's path. */
  lemma DefaultRuleStep(env: Env, spec: FieldSpec, rule: Rule, st: FieldState)
    requires !rule.Custom?
    ensures var r := RunStep(env, spec, Check(rule, None), st);
      r.req == st.req && r.value == st.value &&
      (r.errors == st.errors <==> Holds(env.lib, rule, st.value)) &&
      AppendsDefault(st.errors, r.errors, spec.path)
  {
    assert st.errors[..|st.errors|] == st.errors;
    assert (st.errors + [FieldEntry(st.value, Plain(DefaultMessage), spec.path, spec.location)])[..|st.errors|] == st.errors;
  }

  /** `trim` records nothing and leaves the trimmed string as the value. */
  lemma TrimStepValue(env: Env, spec: FieldSpec, st: FieldState)
    ensures RunStep(env, spec, Trim, st).errors == st.errors
    ensures RunStep(env, spec, Trim, st).value == Value(JString(Text.Trim(ToString(st.value))))
  {
  }

  /** The nameSchema steps record no error exactly for an acceptable name;
      any error they record is "Invalid value" under the field's path, and
      the value ends trimmed. */
  lemma NameRules(env: Env, spec: FieldSpec, st: FieldState)
    ensures var r := RunSteps(env, spec, NameSteps, st);
      (r.errors == st.errors <==> AcceptableName(st.value)) &&
      AppendsDefault(st.errors, r.errors, spec.path) &&
      r.value == Value(JString(Text.Trim(ToString(st.value))))
  {
    var s1 := RunStep(env, spec, NameSteps[0], st);
    var s2 := RunStep(env, spec, NameSteps[1], s1);
    var s3 := RunStep(env, spec, NameSteps[2], s2);
    var s4 := RunStep(env, spec, NameSteps[3], s3);
    assert NameSteps[3..] == [Trim] && [Trim][1..] == [];
    assert RunSteps(env, spec, [Trim], s3) == s4;
    assert RunSteps(env, spec, NameSteps[2..], s2) == s4 by { assert NameSteps[2..][1..] == NameSteps[3..]; }
    assert RunSteps(env, spec, NameSteps[1..], s1) == s4 by { assert NameSteps[1..][1..] == NameSteps[2..]; }
    assert RunSteps(env, spec, NameSteps, st) == s4;
    DefaultRuleStep(env, spec, NotEmpty, st);
    DefaultRuleStep(env, spec, IsString, s1);
    DefaultRuleStep(env, spec, IsLength(1, 256), s2);
    TrimStepValue(env, spec, s3);
    AppendsDefaultTrans(st.errors, s1.errors, s2.errors, spec.path);
    AppendsDefaultTrans(st.errors, s2.errors, s3.errors, spec.path);
  }

  /** A name field with nameSchema's steps, as in the register schema,
      reports nothing exactly for an acceptable name, and otherwise
      "Invalid value" under `name`. */
  lemma NameFieldReports(env: Env, req: Request, spec: FieldSpec)
    requires spec.path == "name" && spec.location == Body && !spec.optional && spec.steps == NameSteps
    ensures var e := RunField(env, req, spec).1;
      (e.None? <==> AcceptableName(Field(req, Body, "name"))) &&
      (e.Some? ==> e.value.path == "name" && e.value.msg == Plain(DefaultMessage))
  {
    NameRules(env, spec, FieldState(req, Field(req, Body, "name"), []));
  }

  /** The confirm-password steps record no error exactly for an acceptable
      password equal (`===`) to `req.body.password`. */
  lemma ConfirmPasswordRules(env: Env, spec: FieldSpec, st: FieldState)
    ensures RunSteps(env, spec, ConfirmPasswordSteps, st).errors == st.errors <==>
      AcceptablePassword(env.lib, st.value) && StrictEquals(st.value, Field(st.req, Body, "password"))
  {
    PasswordRules(env, spec, st);
    StepsShape(env, spec, PasswordSteps, st);
    var mid := RunSteps(env, spec, PasswordSteps, st);
    var last := Check(Custom(ConfirmPassword), None);
    var fin := RunStep(env, spec, last, mid);
    StepsAppend(env, spec, PasswordSteps, [last], st);
    assert RunSteps(env, spec, [last], mid) == fin by { assert [last][1..] == []; }
    assert RunSteps(env, spec, ConfirmPasswordSteps, st) == fin;
    var password := Field(mid.req, Body, "password");
    PlainFieldFailures(env, "", mid.value, password);
    if ConfirmPasswordCheck(mid.value, password).Fail? {
      assert |fin.errors| == |mid.errors| + 1;
    } else {
      assert fin.errors == mid.errors;
    }
  }

  /** Running two step lists one after the other is running their
      concatenation. */
  lemma {:induction false} StepsAppend(env: Env, spec: FieldSpec, a: seq<Step>, b: seq<Step>, st: FieldState)
    ensures RunSteps(env, spec, a + b, st) == RunSteps(env, spec, b, RunSteps(env, spec, a, st))
    decreases |a|
  {
    if a == [] {
      assert a + b == b;
    } else {
      assert (a + b)[0] == a[0] && (a + b)[1..] == a[1..] + b;
      StepsAppend(env, spec, a[1..], b, RunStep(env, spec, a[0], st));
    }
  }

  /** Whether `next` is `prev` followed by errors under `path` only. */
  predicate Extends(prev: seq<FieldEntry>, next: seq<FieldEntry>, path: string) {
    |next| >= |prev| && next[..|prev|] == prev &&
    forall i :: |prev| <= i < |next| ==> next[i].path == path
  }

  lemma ExtendsTrans(a: seq<FieldEntry>, b: seq<FieldEntry>, c: seq<FieldEntry>, path: string)
    requires Extends(a, b, path) && Extends(b, c, path)
    ensures Extends(a, c, path)
  {
    assert c[..|a|] == c[..|b|][..|a|];
    forall i | |a| <= i < |c| ensures c[i].path == path {
      if i < |b| {
        assert c[i] == c[..|b|][i];
      }
    }
  }

  /** Steps only ever append errors, each about the field itself, and keep
      `req.decoded_authorization`. */
  lemma {:induction false} StepsShape(env: Env, spec: FieldSpec, steps: seq<Step>, st: FieldState)
    ensures var r := RunSteps(env, spec, steps, st);
      Extends(st.errors, r.errors, spec.path) &&
      r.req.ctx.decodedAuthorization == st.req.ctx.decodedAuthorization
    decreases |steps|
  {
    if steps == [] {
      assert st.errors[..|st.errors|] == st.errors;
    } else {
      var s1 := RunStep(env, spec, steps[0], st);
      StepShape(env, spec, steps[0], st);
      StepsShape(env, spec, steps[1..], s1);
      ExtendsTrans(st.errors, s1.errors, RunSteps(env, spec, steps[1..], s1).errors, spec.path);
    }
  }

  /** One step appends at most one error, about the field itself, and keeps
      `req.decoded_authorization`. */
  lemma StepShape(env: Env, spec: FieldSpec, step: Step, st: FieldState)
    ensures var r := RunStep(env, spec, step, st);
      Extends(st.errors, r.errors, spec.path) && |r.errors| <= |st.errors| + 1 &&
      r.req.ctx.decodedAuthorization == st.req.ctx.decodedAuthorization
  {
    assert st.errors[..|st.errors|] == st.errors;
  }

  /** Whether a step's custom check can only fail with a plain message. */
  predicate PlainStep(step: Step) {
    step.Check? && step.rule.Custom? ==>
      step.rule.check in {ConfirmPassword, Login, EmailNotTaken, ForgotEmail, Username}
  }

  /** A schema none of whose custom checks throws an `ErrorWithStatus`. */
  predicate PlainSchema(fields: Schema) {
    forall f, step :: f in fields && step in f.steps ==> PlainStep(step)
  }

  predicate AllPlain(es: seq<FieldEntry>) {
    forall i :: 0 <= i < |es| ==> es[i].msg.Plain?
  }

  /** One plain step keeps every recorded message plain. */
  lemma PlainStepKeepsPlain(env: Env, spec: FieldSpec, step: Step, st: FieldState)
    requires PlainStep(step) && AllPlain(st.errors)
    ensures AllPlain(RunStep(env, spec, step, st).errors)
  {
    if step.Check? && step.rule.Custom? {
      var res := RunCustom(env, st.req, step.rule.check, st.value);
      PlainFieldFailures(env, ToString(st.value), st.value, Field(st.req, Body, "password"));
      ForgotEmailNeverFails(ToString(st.value));
      assert NeverThrowsStatus(res);
    }
  }

  lemma {:induction false} PlainSteps(env: Env, spec: FieldSpec, steps: seq<Step>, st: FieldState)
    requires forall step :: step in steps ==> PlainStep(step)
    requires AllPlain(st.errors)
    ensures AllPlain(RunSteps(env, spec, steps, st).errors)
    decreases |steps|
  {
    if steps != [] {
      PlainStepKeepsPlain(env, spec, steps[0], st);
      assert forall step :: step in steps[1..] ==> step in steps;
      PlainSteps(env, spec, steps[1..], RunStep(env, spec, steps[0], st));
    }
  }

  /** A plain schema reports only plain messages. */
  lemma {:induction false} PlainFields(env: Env, req: Request, fields: Schema)
    requires PlainSchema(fields)
    ensures AllPlain(RunFields(env, req, fields).1)
    decreases |fields|
  {
    if fields != [] {
      var spec := fields[0];
      var v := Field(req, spec.location, spec.path);
      if !(spec.optional && v.Undefined?) {
        PlainSteps(env, spec, spec.steps, FieldState(req, v, []));
      }
      var (r1, e) := RunField(env, req, fields[0]);
      assert forall f :: f in fields[1..] ==> f in fields;
      PlainFields(env, r1, fields[1..]);
      var (r2, es) := RunFields(env, r1, fields[1..]);
      assert RunFields(env, req, fields).1 == (if e.Some? then [e.value] else []) + es;
    }
  }

  /** The paths of a schema's fields. */
  function FieldPaths(fields: Schema): set<string> {
    set f | f in fields :: f.path
  }

  /** A field reports at most one error, under its own path, and does not
      change `req.decoded_authorization`. */
  lemma FieldShape(env: Env, req: Request, spec: FieldSpec)
    ensures var (r, e) := RunField(env, req, spec);
      (e.Some? ==> e.value.path == spec.path) &&
      r.ctx.decodedAuthorization == req.ctx.decodedAuthorization
  {
    var v := Field(req, spec.location, spec.path);
    if !(spec.optional && v.Undefined?) {
      StepsShape(env, spec, spec.steps, FieldState(req, v, []));
    }
  }

  /** Reported errors come one per field at most, each under a field's path;
      no field run changes `req.decoded_authorization`. */
  lemma {:induction false} FieldsShape(env: Env, req: Request, fields: Schema)
    ensures var (r, es) := RunFields(env, req, fields);
      |es| <= |fields| &&
      (forall i :: 0 <= i < |es| ==> es[i].path in FieldPaths(fields)) &&
      r.ctx.decodedAuthorization == req.ctx.decodedAuthorization
    decreases |fields|
  {
    if fields != [] {
      FieldShape(env, req, fields[0]);
      var (r1, e) := RunField(env, req, fields[0]);
      FieldsShape(env, r1, fields[1..]);
      var es := RunFields(env, r1, fields[1..]).1;
      assert FieldPaths(fields) == {fields[0].path} + FieldPaths(fields[1..]) by {
        assert forall f :: f in fields <==> f == fields[0] || f in fields[1..];
      }
      var all := RunFields(env, req, fields).1;
      assert all == (if e.Some? then [e.value] else []) + es;
    }
  }

  /** Whether `req[loc][path]` is the field's own key. */
  predicate SameKey(spec: FieldSpec, loc: Location, path: string) {
    loc == spec.location && KeyOf(loc, path) == KeyOf(spec.location, spec.path)
  }

  /** Whether a field run may write to `req[loc][path]`: only a `trim` of
      that very field does. */
  predicate MayWrite(spec: FieldSpec, loc: Location, path: string) {
    Trim in spec.steps && SameKey(spec, loc, path)
  }

  /** A step run leaves every field of the request as it was, except that
      `trim` writes back the field's own key. */
  lemma {:induction false} StepsFrame(env: Env, spec: FieldSpec, steps: seq<Step>, st: FieldState, loc: Location, path: string)
    requires Trim in steps ==> !SameKey(spec, loc, path)
    ensures Field(RunSteps(env, spec, steps, st).req, loc, path) == Field(st.req, loc, path)
    decreases |steps|
  {
    if steps != [] {
      assert Trim in steps[1..] ==> Trim in steps;
      StepsFrame(env, spec, steps[1..], RunStep(env, spec, steps[0], st), loc, path);
    }
  }

  /** A schema run leaves alone every field that none of its fields names. */
  lemma {:induction false} FieldsFrame(env: Env, req: Request, fields: Schema, loc: Location, path: string)
    requires forall f :: f in fields ==> !MayWrite(f, loc, path)
    ensures Field(RunFields(env, req, fields).0, loc, path) == Field(req, loc, path)
    decreases |fields|
  {
    if fields != [] {
      var spec := fields[0];
      assert spec in fields;
      var v := Field(req, spec.location, spec.path);
      if !(spec.optional && v.Undefined?) {
        StepsFrame(env, spec, spec.steps, FieldState(req, v, []), loc, path);
      }
      assert forall f :: f in fields[1..] ==> f in fields;
      FieldsFrame(env, RunField(env, req, spec).0, fields[1..], loc, path);
    }
  }

  /** Running two schemas one after the other is running their concatenation. */
  lemma {:induction false} FieldsAppend(env: Env, req: Request, a: Schema, b: Schema)
    ensures RunFields(env, req, a + b).0 == RunFields(env, RunFields(env, req, a).0, b).0
    ensures RunFields(env, req, a + b).1 == RunFields(env, req, a).1 + RunFields(env, RunFields(env, req, a).0, b).1
    decreases |a|
  {
    if a == [] {
      assert a + b == b;
    } else {
      assert (a + b)[0] == a[0] && (a + b)[1..] == a[1..] + b;
      var (r0, e0) := RunField(env, req, a[0]);
      FieldsAppend(env, r0, a[1..], b);
      var head: seq<FieldEntry> := if e0.Some? then [e0.value] else [];
      var ea := RunFields(env, r0, a[1..]).1;
      var eb := RunFields(env, RunFields(env, r0, a[1..]).0, b).1;
      assert head + (ea + eb) == (head + ea) + eb;
    }
  }

  /** No custom check of the register schema throws an `ErrorWithStatus`,
      so its failures are always aggregated. */
  lemma RegisterIsPlain()
    ensures PlainSchema(RegisterSchema)
  {
  }

  /** Likewise for the login schema: its custom check throws plain errors
      only. */
  lemma LoginIsPlain()
    ensures PlainSchema(LoginSchema)
  {
  }

  /** The confirm-password field reports a plain error whenever its value
      differs (`!==`) from `req.body.password`. */
  lemma ConfirmFieldReports(env: Env, req: Request, confirm: FieldSpec)
    requires confirm.path == "confirm_password" && confirm.location == Body && !confirm.optional
    requires confirm.steps == ConfirmPasswordSteps
    requires !StrictEquals(Field(req, Body, "confirm_password"), Field(req, Body, "password"))
    ensures var e := RunField(env, req, confirm).1; e.Some? && e.value.path == "confirm_password" && e.value.msg.Plain?
  {
    var st := FieldState(req, Field(req, Body, "confirm_password"), []);
    ConfirmPasswordRules(env, confirm, st);
    StepsShape(env, confirm, confirm.steps, st);
    assert forall step :: step in ConfirmPasswordSteps ==> PlainStep(step);
    PlainSteps(env, confirm, confirm.steps, st);
  }

  /** A confirm-password field placed after fields that do not write to
      `password` or `confirm_password` reports a plain error whenever the two
      values differ (`!==`). */
  lemma {:induction false} MismatchReported(env: Env, req: Request, before: Schema, confirm: FieldSpec, after: Schema)
    requires confirm.path == "confirm_password" && confirm.location == Body && !confirm.optional
    requires confirm.steps == ConfirmPasswordSteps
    requires forall f :: f in before ==> !MayWrite(f, Body, "password") && !MayWrite(f, Body, "confirm_password")
    requires !StrictEquals(Field(req, Body, "confirm_password"), Field(req, Body, "password"))
    ensures exists e :: e in RunFields(env, req, before + [confirm] + after).1 && e.path == "confirm_password" && e.msg.Plain?
  {
    FieldsFrame(env, req, before, Body, "password");
    FieldsFrame(env, req, before, Body, "confirm_password");
    var r3 := RunFields(env, req, before).0;
    assert before + [confirm] + after == before + ([confirm] + after);
    FieldsAppend(env, req, before, [confirm] + after);
    ConfirmFieldReports(env, r3, confirm);
    var (r4, e4) := RunField(env, r3, confirm);
    assert RunFields(env, r3, [confirm] + after).1 == [e4.value] + RunFields(env, r4, after).1 by {
      assert ([confirm] + after)[0] == confirm && ([confirm] + after)[1..] == after;
    }
    assert e4.value in RunFields(env, req, before + [confirm] + after).1;
  }

  /** A registration whose `confirm_password` differs (`!==`) from `password`
      always reports a plain error under `confirm_password`, whatever the other
      fields hold. */
  lemma RegisterReportsMismatch(env: Env, req: Request)
    requires !StrictEquals(Field(req, Body, "confirm_password"), Field(req, Body, "password"))
    ensures exists e :: e in RunFields(env, req, RegisterSchema).1 && e.path == "confirm_password" && e.msg.Plain?
  {
    var before := RegisterSchema[..3];
    assert Trim !in PasswordSteps;
    assert forall f :: f in before ==> !MayWrite(f, Body, "password") && !MayWrite(f, Body, "confirm_password");
    assert RegisterSchema == before + [RegisterSchema[3]] + RegisterSchema[4..];
    MismatchReported(env, req, before, RegisterSchema[3], RegisterSchema[4..]);
  }

  /** The first field's error, if any, is the first reported. */
  lemma FirstFieldFirst(env: Env, req: Request, fields: Schema)
    requires fields != []
    ensures var e := RunField(env, req, fields[0]).1; var es := RunFields(env, req, fields).1;
      e.Some? ==> es != [] && es[0] == e.value
  {
  }

  /** A registration whose name is not a string of 1 to 256 characters
      reports "Invalid value" under `name` first. */
  lemma RegisterReportsBadName(env: Env, req: Request)
    requires !AcceptableName(Field(req, Body, "name"))
    ensures var es := RunFields(env, req, RegisterSchema).1;
      es != [] && es[0].path == "name" && es[0].msg == Plain(DefaultMessage)
  {
    var fields := RegisterSchema;
    assert fields[0] == FieldSpec("name", Body, false, NameSteps);
    NameFieldReports(env, req, fields[0]);
    FirstFieldFirst(env, req, fields);
  }

  /** `trim` on an absent field yields the empty string and writes nothing. */
  lemma TrimAbsent(env: Env, spec: FieldSpec, st: FieldState)
    requires Field(st.req, spec.location, spec.path) == Undefined && st.value == Undefined
    ensures RunStep(env, spec, Trim, st) == st.(value := Value(JString("")))
  {
    assert Text.Trim("") == "";
  }

  lemma AccessCheckEmpty(env: Env, spec: FieldSpec, st: FieldState)
    requires st.value == Value(JString(""))
    ensures RunStep(env, spec, Check(Custom(AccessToken), None), st) ==
      st.(errors := st.errors + [FieldEntry(st.value, WithStatus(ErrorWithStatus(Some("Access token is required"), 401)), spec.path, spec.location)])
  {
    Checks.NoSecondSegment("");
  }

  /** A missing header makes the trimmed access check fail with 401
      `ACCESS_TOKEN_IS_REQUIRED`, and nothing is written back. */
  lemma AccessFieldMissing(env: Env, req: Request, spec: FieldSpec)
    requires spec.location == Headers && !spec.optional
    requires spec.steps == [Trim, Check(Custom(AccessToken), None)]
    requires KeyOf(Headers, spec.path) !in req.headers
    ensures RunField(env, req, spec) ==
      (req, Some(FieldEntry(Value(JString("")), WithStatus(ErrorWithStatus(Some("Access token is required"), 401)), spec.path, Headers)))
  {
    var st := FieldState(req, Undefined, []);
    TrimAbsent(env, spec, st);
    var s1 := st.(value := Value(JString("")));
    AccessCheckEmpty(env, spec, s1);
    var s2 := RunStep(env, spec, Check(Custom(AccessToken), None), s1);
    calc {
      RunSteps(env, spec, spec.steps, st);
      RunSteps(env, spec, spec.steps[1..], s1);
      { assert spec.steps[1..][0] == spec.steps[1] && spec.steps[1..][1..] == []; }
      RunSteps(env, spec, [], s2);
    }
  }

  /** A one-field schema reports its field's error alone. */
  lemma SingleField(env: Env, req: Request, fields: Schema)
    requires |fields| == 1
    ensures RunFields(env, req, fields).0 == RunField(env, req, fields[0]).0
    ensures RunFields(env, req, fields).1 ==
      (if RunField(env, req, fields[0]).1.Some? then [RunField(env, req, fields[0]).1.value] else [])
  {
    assert fields[1..] == [];
  }

  /** Without an `Authorization` header the access guard reports exactly one
      error: 401 `ACCESS_TOKEN_IS_REQUIRED` on the trimmed empty value, and the
      request is left as it was. */
  lemma AccessTokenMissing(env: Env, req: Request)
    requires "authorization" !in req.headers
    ensures RunFields(env, req, AccessTokenSchema) ==
      (req, [FieldEntry(Value(JString("")), WithStatus(ErrorWithStatus(Some("Access token is required"), 401)), "Authorization", Headers)])
  {
    var spec := AccessTokenSchema[0];
    Requests.AuthorizationKey(spec.path);
    AccessFieldMissing(env, req, spec);
    SingleField(env, req, AccessTokenSchema);
  }
}
