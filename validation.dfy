/** `validate` of src/utils/validation.ts: run a schema, then call `next()`
    when nothing failed; otherwise walk the mapped errors in key order,
    forwarding the first `ErrorWithStatus` whose status is not 422 on its own,
    and else forwarding one `EntityError` (422) holding every mapped error. */
module Validation {
  import opened Errors
  import opened Store
  import opened Requests
  import opened Schema

  /** What the middleware passes to `next`: nothing, or an error. */
  datatype NextCall = Proceed | Forward(err: Thrown)

  /** Whether all entries have different paths (the keys of a JavaScript
      object). */
  predicate DistinctPaths(es: seq<FieldEntry>) {
    forall i, j :: 0 <= i < j < |es| ==> es[i].path != es[j].path
  }

  /** The paths errors were recorded under. */
  function Paths(es: seq<FieldEntry>): set<string> {
    set e | e in es :: e.path
  }

  /** `validationResult(req).mapped()` as a list in key order: the first error
      of each path not in `seen`, in order of first appearance. */
  function MappedFrom(es: seq<FieldEntry>, seen: set<string>): seq<FieldEntry>
    decreases |es|
  {
    if es == [] then []
    else if es[0].path in seen then MappedFrom(es[1..], seen)
    else [es[0]] + MappedFrom(es[1..], seen + {es[0].path})
  }

  function Mapped(es: seq<FieldEntry>): seq<FieldEntry> {
    MappedFrom(es, {})
  }

  lemma PathsCons(es: seq<FieldEntry>)
    requires es != []
    ensures Paths(es) == {es[0].path} + Paths(es[1..])
    ensures forall e :: e in es[1..] ==> e in es
  {
    assert forall e :: e in es <==> e == es[0] || e in es[1..];
  }

  lemma ConsDistinct(x: FieldEntry, rest: seq<FieldEntry>)
    requires DistinctPaths(rest) && x.path !in Paths(rest)
    ensures DistinctPaths([x] + rest)
  {
    var r := [x] + rest;
    forall i, j | 0 <= i < j < |r| ensures r[i].path != r[j].path {
      assert r[j] == rest[j - 1];
      if i > 0 {
        assert r[i] == rest[i - 1];
      }
    }
  }

  /** The mapped errors: one per path outside `seen` (distinct paths, and
      exactly the recorded paths outside `seen`), each a recorded error. */
  lemma {:induction false} MappedFromSpec(es: seq<FieldEntry>, seen: set<string>)
    ensures var r := MappedFrom(es, seen);
      DistinctPaths(r) && Paths(r) == Paths(es) - seen && forall e :: e in r ==> e in es
    decreases |es|
  {
    if es != [] {
      PathsCons(es);
      if es[0].path in seen {
        MappedFromSpec(es[1..], seen);
      } else {
        var rest := MappedFrom(es[1..], seen + {es[0].path});
        MappedFromSpec(es[1..], seen + {es[0].path});
        PathsCons([es[0]] + rest);
        assert ([es[0]] + rest)[1..] == rest;
        ConsDistinct(es[0], rest);
      }
    }
  }

  /** Errors reported under distinct paths are mapped as they are. */
  lemma {:induction false} MappedDistinct(es: seq<FieldEntry>, seen: set<string>)
    requires DistinctPaths(es)
    requires forall i :: 0 <= i < |es| ==> es[i].path !in seen
    ensures MappedFrom(es, seen) == es
    decreases |es|
  {
    if es != [] {
      assert DistinctPaths(es[1..]);
      assert forall i :: 0 <= i < |es[1..]| ==> es[1..][i].path !in seen + {es[0].path} by {
        forall i | 0 <= i < |es[1..]| ensures es[1..][i].path !in seen + {es[0].path} {
          assert es[1..][i] == es[i + 1];
        }
      }
      MappedDistinct(es[1..], seen + {es[0].path});
    }
  }

  /** A message that `validate` forwards on its own: an `ErrorWithStatus`
      whose status is not 422. */
  predicate ShortCircuits(m: Msg) {
    m.WithStatus? && m.err.status != UNPROCESSABELE_ENTITY
  }

  /** The key-order position of the first short-circuiting error. */
  function FirstShortCircuit(es: seq<FieldEntry>): (r: Option<nat>)
    ensures r.Some? ==> r.value < |es| && ShortCircuits(es[r.value].msg) &&
                        forall k :: 0 <= k < r.value ==> !ShortCircuits(es[k].msg)
    ensures r.None? <==> forall k :: 0 <= k < |es| ==> !ShortCircuits(es[k].msg)
  {
    if es == [] then None
    else if ShortCircuits(es[0].msg) then Some(0)
    else match FirstShortCircuit(es[1..])
      case None => None
      case Some(k) => Some(k + 1)
  }

  /** `entityError.errors` after the loop has stored the entries in order. */
  function Collect(es: seq<FieldEntry>): ErrorType
    decreases |es|
  {
    if es == [] then map[] else Collect(es[..|es| - 1])[es[|es| - 1].path := es[|es| - 1]]
  }

  /** What `validate` passes to `next` for the mapped errors. */
  function Decision(es: seq<FieldEntry>): NextCall {
    if es == [] then Proceed
    else match FirstShortCircuit(es)
      case Some(i) => Forward(Typed(es[i].msg.err))
      case None => Forward(Entity(NewEntityError(None, Collect(es))))
  }

  /** The loop of `validate` over the mapped errors: early return on the first
      short-circuiting message, otherwise one `EntityError`. */
  method Validate(errors: seq<FieldEntry>) returns (call: NextCall)
    ensures call == Decision(errors)
  {
    if |errors| == 0 {
      return Proceed;
    }
    var entityError := NewEntityError(None, map[]);
    var i := 0;
    while i < |errors|
      invariant 0 <= i <= |errors|
      invariant entityError == NewEntityError(None, Collect(errors[..i]))
      invariant forall k :: 0 <= k < i ==> !ShortCircuits(errors[k].msg)
    {
      var msg := errors[i].msg;
      if msg.WithStatus? && msg.err.status != UNPROCESSABELE_ENTITY {
        return Forward(Typed(msg.err));
      }
      assert errors[..i + 1][..i] == errors[..i];
      entityError := entityError.(errors := entityError.errors[errors[i].path := errors[i]]);
      i := i + 1;
    }
    assert errors[..i] == errors;
    return Forward(Entity(entityError));
  }

  /** The middleware returned by `validate(schema)`: the request after the
      schema ran, and the call to `next`. */
  function ValidateStage(env: Env, req: Request, fields: Schema): (Request, NextCall) {
    var (r, es) := RunFields(env, req, fields);
    (r, Decision(Mapped(es)))
  }

  // ---------------------------------------------------------------------------
  // Properties

  /** The keys of the stored errors are the paths, and each path holds its
      own entry. */
  lemma {:induction false} CollectContents(es: seq<FieldEntry>)
    requires DistinctPaths(es)
    ensures Collect(es).Keys == set e | e in es :: e.path
    ensures forall i :: 0 <= i < |es| ==> Collect(es)[es[i].path] == es[i]
    decreases |es|
  {
    if es != [] {
      var init := es[..|es| - 1];
      var last := es[|es| - 1];
      assert DistinctPaths(init);
      CollectContents(init);
      assert forall e :: e in es <==> e in init || e == last;
      forall i | 0 <= i < |es|
        ensures Collect(es)[es[i].path] == es[i]
      {
        if i < |es| - 1 {
          assert init[i] == es[i];
        }
      }
    }
  }

  /** Some error is mapped exactly when some error was reported. */
  lemma MappedEmpty(es: seq<FieldEntry>)
    ensures Mapped(es) == [] <==> es == []
  {
    MappedFromSpec(es, {});
    if es != [] {
      assert es[0].path in Paths(es);
    }
  }

  /** `next()` is called exactly when no error was reported. */
  lemma ProceedIffNoErrors(es: seq<FieldEntry>)
    ensures Decision(Mapped(es)) == Proceed <==> es == []
  {
    MappedEmpty(es);
    var m := Mapped(es);
    if m != [] {
      match FirstShortCircuit(m)
      case Some(i) =>
      case None =>
    }
  }

  /** The first short-circuiting error in key order is forwarded unchanged;
      the errors before it are dropped. */
  lemma ShortCircuitForwarded(es: seq<FieldEntry>, i: nat)
    requires i < |es| && ShortCircuits(es[i].msg)
    requires forall k :: 0 <= k < i ==> !ShortCircuits(es[k].msg)
    ensures Decision(es) == Forward(Typed(es[i].msg.err))
    ensures Decision(es).err.StatusOf() != 422
  {
  }

  /** Without a short-circuiting error, one `EntityError` is forwarded: status
      422, message "Validation Error", and exactly the mapped errors under
      their paths (422 `ErrorWithStatus` messages included). */
  lemma Aggregated(es: seq<FieldEntry>)
    requires es != [] && DistinctPaths(es)
    requires forall k :: 0 <= k < |es| ==> !ShortCircuits(es[k].msg)
    ensures Decision(es).Forward? && Decision(es).err.Entity?
    ensures var e := Decision(es).err.entity;
      e.Status() == 422 && e.message == Some("Validation Error") &&
      e.errors.Keys == (set d | d in es :: d.path) &&
      forall k :: 0 <= k < |es| ==> e.errors[es[k].path] == es[k]
  {
    CollectContents(es);
  }

  /** A run whose messages are all plain never short-circuits: it proceeds or
      forwards an `EntityError`. */
  lemma PlainNeverShortCircuits(es: seq<FieldEntry>)
    requires AllPlain(es)
    ensures Decision(Mapped(es)) == Proceed || Decision(Mapped(es)).err.Entity?
  {
    var m := Mapped(es);
    MappedFromSpec(es, {});
    forall k | 0 <= k < |m| ensures !ShortCircuits(m[k].msg) {
      assert m[k] in es;
    }
  }

  /** A stage whose schema reports only plain messages never forwards a
      typed error: it proceeds or forwards one `EntityError`. */
  lemma PlainStage(env: Env, req: Request, fields: Schema)
    requires PlainSchema(fields)
    ensures var call := ValidateStage(env, req, fields).1;
      call == Proceed || call.err.Entity?
  {
    PlainFields(env, req, fields);
    PlainNeverShortCircuits(RunFields(env, req, fields).1);
  }
}
