/**
 * The `{ success, data }` envelope every endpoint answers with, and the test
 * `data.success && data.data` both loaders apply to it (blog.js:12, 32).
 */
module Envelope {
  import opened Wrappers

  /** A value decoded from JSON, as far as JavaScript truthiness and the
      loaders can tell it apart. `Payload` is a value of the shape the caller
      expects (an array of posts, one post object); `Obj` is a non-array
      object other than one with `length` 0 (list) or a post object (single
      post); on the single-post path a truthy array that is not a post
      object behaves the same way and is written `Obj` too. */
  datatype JsValue<+T> =
    | Undefined
    | Null
    | Bool(b: bool)
    | Num(x: real)
    | NaN
    | Str(s: string)
    | Obj
    | Payload(v: T)

  /** JavaScript's `ToBoolean`: `undefined`, `null`, `false`, `0`, `NaN` and
      `""` are falsy; every object, the empty array included, is truthy. */
  predicate Truthy<T>(v: JsValue<T>)
  {
    match v
    case Undefined | Null | NaN => false
    case Bool(b) => b
    case Num(x) => x != 0.0
    case Str(s) => s != ""
    case Obj | Payload(_) => true
  }

  /** What `await fetch(url)` followed by `await response.json()` yields.
      `TransportFailure` is every path that throws before the envelope can
      be inspected: a rejected fetch, a body that is not JSON, or a body that
      decodes to `null` so that reading `.success` throws. A body that
      decodes to a non-object is `Parsed(Undefined, Undefined)`. */
  datatype Response<+T> =
    | TransportFailure
    | Parsed(success: JsValue<()>, data: JsValue<T>)

  /** `data.success && data.data` is truthy. */
  predicate Accepted<T>(resp: Response<T>)
  {
    resp.Parsed? && Truthy(resp.success) && Truthy(resp.data)
  }

  /** `loadBlogPost` (blog.js:27-41): the payload when the envelope is
      accepted, `null` otherwise. Rejection throws inside the `try` and a
      failed fetch or parse throws too; the `catch` turns both into `null`,
      so nothing escapes. */
  function LoadBlogPost<T>(resp: Response<T>): (post: Option<JsValue<T>>)
    ensures post.Some? <==> Accepted(resp)
    ensures post.Some? ==> resp.Parsed? && post.value == resp.data && Truthy(post.value)
    ensures resp.TransportFailure? ==> post.None?
  {
    match resp
    case TransportFailure => None
    case Parsed(success, data) =>
      if Truthy(success) && Truthy(data) then Some(data) else None
  }

  /** Which envelopes pass: an empty list is data, and `success: false`
      rejects whatever `data` holds; `null`, `0`, `""`, `false` and a
      missing `data` are rejected. */
  lemma AcceptanceExamples<T>(payload: T)
    ensures Accepted<seq<T>>(Parsed(Bool(true), Payload([])))
    ensures forall d: JsValue<T> :: !Accepted(Parsed(Bool(false), d))
    ensures !Accepted<T>(Parsed(Bool(true), Null))
    ensures !Accepted<T>(Parsed(Bool(true), Num(0.0)))
    ensures !Accepted<T>(Parsed(Bool(true), Str("")))
    ensures !Accepted<T>(Parsed(Bool(true), Bool(false)))
    ensures !Accepted<T>(Parsed(Bool(true), Undefined))
    ensures Accepted(Parsed(Bool(true), Payload(payload)))
  {
  }
}
