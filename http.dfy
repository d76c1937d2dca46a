/** What the route handlers see of `fetch` and what they answer with. */
module Http {
  import opened Wrappers
  import opened Js

  /** What `fetch` settled to: a response with its status, its body as
      `text()` reads it and as `json()` parses it (a failure is the parse
      error's message); or a rejection with its message. */
  datatype Fetched<J> = Response(status: int, text: string, json: Result<J>) | Rejected(message: string)

  /** `resp.ok`. */
  predicate IsOk(status: int) { 200 <= status <= 299 }

  /** A route's answer: status 200 with `{ rows }`, or status 500 with
      `{ error, details }`. */
  datatype RouteReply<R> = Rows(rows: R) | Error500(error: string, details: string)

  /** The answer to a response that is not ok: `supabase error <status>`
      with the response text as details. */
  function StoreFailure<R>(status: int, text: string): (r: RouteReply<R>)
    ensures r.Error500? && r.details == text
    ensures r.error == "supabase error " + IntText(status)
  {
    Error500("supabase error " + IntText(status), text)
  }

  /** The answer when the handler throws: `internal` with the message. */
  function InternalError<R>(message: string): (r: RouteReply<R>)
    ensures r.Error500? && r.error == "internal" && r.details == message
  {
    Error500("internal", message)
  }
}
