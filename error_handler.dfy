/** `defaultErrorHandler` of src/middlewares/error.middlewares.ts and the JSON
    bodies it sends. A typed error (an `ErrorWithStatus`, an `EntityError`
    included) answers with its own status and its fields without `status`;
    anything else answers 500 with `{ messsage, errorInfo }`, where
    `errorInfo` holds every own property of the error (made enumerable first)
    except `stack`. Properties whose value is `undefined` do not appear in
    the JSON text, so they are absent from the bodies here. */
module ErrorHandler {
  import opened Errors

  /** The status and the parsed JSON body of a response. */
  datatype Response = Response(status: int, body: map<string, Json>)

  function LocationName(l: Location): string {
    match l
    case Body => "body"
    case Headers => "headers"
    case Params => "params"
  }

  /** The JSON of an `ErrorWithStatus` instance: `message` (when defined) and
      `status`. */
  function ErrorWithStatusJson(e: ErrorWithStatus): (r: map<string, Json>)
    ensures r.Keys == (if e.message.Some? then {"message", "status"} else {"status"})
    ensures r["status"] == JNumber(e.status)
    ensures e.message.Some? ==> r["message"] == JString(e.message.value)
  {
    var m := map["status" := JNumber(e.status)];
    if e.message.Some? then m["message" := JString(e.message.value)] else m
  }

  function MsgJson(m: Msg): Json {
    match m
    case Plain(text) => JString(text)
    case WithStatus(e) => JObject(ErrorWithStatusJson(e))
  }

  /** The JSON of one express-validator field error. */
  function EntryJson(e: FieldEntry): (r: Json)
    ensures r.JObject? && {"type", "msg", "path", "location"} <= r.fields.Keys
    ensures r.fields["msg"] == MsgJson(e.msg) && r.fields["path"] == JString(e.path)
    ensures "value" in r.fields <==> e.value.Value?
    ensures e.value.Value? ==> r.fields["value"] == e.value.json
  {
    var m := map["type" := JString("field"), "msg" := MsgJson(e.msg), "path" := JString(e.path),
                 "location" := JString(LocationName(e.location))];
    JObject(if e.value.Value? then m["value" := e.value.json] else m)
  }

  function ErrorsJson(errors: ErrorType): (r: Json)
    ensures r.JObject? && r.fields.Keys == errors.Keys
    ensures forall k :: k in errors ==> r.fields[k] == EntryJson(errors[k])
  {
    JObject(map k | k in errors :: EntryJson(errors[k]))
  }

  /** `omit(err, ['status'])` for a typed error. */
  function TypedBody(err: Thrown): map<string, Json>
    requires err.IsErrorWithStatus()
  {
    var e := if err.Typed? then err.err else err.entity.AsErrorWithStatus();
    var fields := ErrorWithStatusJson(e) - {"status"};
    if err.Entity? then fields["errors" := ErrorsJson(err.entity.errors)] else fields
  }

  /** The enumerable own properties of an error object. */
  function EnumerableOwn(o: ErrorObject): map<string, Json> {
    map k | k in o.own && k in o.enumerable :: o.own[k]
  }

  /** `err.message`: the own property, or `Error.prototype.message` (""). */
  function MessageOf(o: ErrorObject): Json {
    if "message" in o.own then o.own["message"] else JString("")
  }

  /** The response `defaultErrorHandler` sends for an error. */
  function ErrorResponse(err: Thrown): Response {
    if err.IsErrorWithStatus() then Response(err.StatusOf(), TypedBody(err))
    else
      var o := err.obj.(enumerable := err.obj.own.Keys);
      Response(INTERNAL_SERVER_ERROR, map["messsage" := MessageOf(o), "errorInfo" := JObject(EnumerableOwn(o) - {"stack"})])
  }

  /** `defaultErrorHandler`: a typed error is answered at once; otherwise
      every own property is made enumerable, one at a time, before the 500
      body is built. */
  method DefaultErrorHandler(err: Thrown) returns (res: Response)
    ensures res == ErrorResponse(err)
  {
    if err.Typed? || err.Entity? {
      return Response(err.StatusOf(), TypedBody(err));
    }
    var obj := err.obj;
    var names := obj.own.Keys;
    while names != {}
      invariant names <= obj.own.Keys
      invariant obj.own == err.obj.own
      invariant obj.enumerable + names == err.obj.enumerable + err.obj.own.Keys
      decreases |names|
    {
      var key :| key in names;
      obj := obj.(enumerable := obj.enumerable + {key});
      names := names - {key};
    }
    assert EnumerableOwn(obj) == EnumerableOwn(err.obj.(enumerable := err.obj.own.Keys));
    res := Response(INTERNAL_SERVER_ERROR, map["messsage" := MessageOf(obj), "errorInfo" := JObject(EnumerableOwn(obj) - {"stack"})]);
  }

  // ---------------------------------------------------------------------------
  // Properties

  /** A typed error keeps its status and its fields, minus `status`: the
      message when defined and, for an `EntityError`, the errors under their
      keys. */
  lemma TypedResponse(err: Thrown)
    requires err.IsErrorWithStatus()
    ensures var r := ErrorResponse(err);
      r.status == err.StatusOf() && "status" !in r.body &&
      ("message" in r.body <==> (if err.Typed? then err.err.message else err.entity.message).Some?) &&
      ("errors" in r.body <==> err.Entity?) &&
      (err.Entity? ==> r.body["errors"].fields.Keys == err.entity.errors.Keys)
  {
  }

  /** An `EntityError` from `validate` answers 422 with "Validation Error". */
  lemma EntityResponse(errors: ErrorType)
    ensures var r := ErrorResponse(Entity(NewEntityError(None, errors)));
      r.status == 422 && r.body.Keys == {"message", "errors"} &&
      r.body["message"] == JString("Validation Error")
  {
    TypedResponse(Entity(NewEntityError(None, errors)));
  }

  /** Anything else answers 500; `errorInfo` holds every own property except
      `stack`, enumerable or not, and `messsage` is the error's message. */
  lemma UntypedResponse(o: ErrorObject)
    ensures var r := ErrorResponse(Untyped(o));
      r.status == 500 && r.body.Keys == {"messsage", "errorInfo"} &&
      r.body["errorInfo"].JObject? &&
      r.body["errorInfo"].fields.Keys == o.own.Keys - {"stack"} &&
      (forall k :: k in o.own && k != "stack" ==> r.body["errorInfo"].fields[k] == o.own[k]) &&
      ("message" in o.own ==> r.body["messsage"] == o.own["message"])
  {
  }
}
