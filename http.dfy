/**
 * What a form handler learns from its `fetch`: either the server answered
 * (`response.ok` and the JSON body's `message` and `token`, with `""`
 * standing for a missing or falsy field), or the request, the JSON
 * decoding or the reading of a `null` body threw, with the error's message.
 */
module Http {
  import opened Wrappers
  import opened Text

  datatype Reply =
    | Answered(ok: bool, message: string, token: string)
    | Threw(reason: string)

  /**
   * The `submit` message after a failed submission: a non-ok answer throws
   * `new Error(data.message || failed)`, and the handler shows
   * `error.message || crashed`.
   */
  function SubmitError(reply: Reply, failed: string, crashed: string): (m: string)
    requires failed != "" && crashed != ""
    ensures m != ""
    ensures reply.Answered? && reply.message != "" ==> m == reply.message
    ensures reply.Answered? && reply.message == "" ==> m == failed
    ensures reply.Threw? ==> m == OrElse(reply.reason, crashed)
  {
    match reply
    case Answered(_, message, _) => OrElse(OrElse(message, failed), crashed)
    case Threw(reason) => OrElse(reason, crashed)
  }

  /** Whether the handler takes its success path. */
  predicate Succeeded(reply: Reply) {
    reply.Answered? && reply.ok
  }

  /** The header value `` `Bearer ${token}` `` for a stored token; a missing one is written `null`. */
  function Bearer(stored: Option<string>): (h: string)
    ensures stored.Some? ==> h == "Bearer " + stored.value
    ensures stored.None? ==> h == "Bearer null"
  {
    "Bearer " + if stored.Some? then stored.value else "null"
  }
}
