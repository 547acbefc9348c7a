/** `filterMiddleware` of src/middlewares/common.middlewares.ts: replace
    `req.body` by lodash `pick(req.body, filterKeys)` and call `next()`. */
module Filter {
  import opened Errors
  import opened Requests

  /** lodash `pick` on a plain object: the listed keys that are present, with
      their values. */
  function Pick(body: map<string, Json>, keys: seq<string>): (r: map<string, Json>)
    ensures r.Keys == body.Keys * (set k | k in keys)
    ensures forall k :: k in r ==> r[k] == body[k]
  {
    map k | k in body && k in keys :: body[k]
  }

  /** The middleware: the request with its body picked; `next()` follows. */
  function FilterStage(req: Request, keys: seq<string>): (r: Request)
    ensures r.body == Pick(req.body, keys)
    ensures r.headers == req.headers && r.params == req.params && r.ctx == req.ctx
  {
    req.(body := Pick(req.body, keys))
  }

  /** Picking twice with the same keys is picking once. */
  lemma PickIdempotent(body: map<string, Json>, keys: seq<string>)
    ensures Pick(Pick(body, keys), keys) == Pick(body, keys)
  {
  }

  /** A body already within the keys is left as it is. */
  lemma PickWithinKeys(body: map<string, Json>, keys: seq<string>)
    requires forall k :: k in body ==> k in keys
    ensures Pick(body, keys) == body
  {
  }

  /** Picking with more keys keeps more: the result for a shorter key list is
      the result for the longer one restricted to it. */
  lemma PickMonotone(body: map<string, Json>, keys: seq<string>, more: seq<string>)
    ensures Pick(body, keys) == Pick(Pick(body, keys + more), keys)
  {
  }
}
