/**
  The boundary to the completion service. The service itself is not
  modelled: a route receives the service as a function from what it sends
  to a `Completion`, so any reply, or any failure, may come back.
*/
module Gateway {
  import opened Base
  import opened Errors
  import opened Models
  import opened Prompts

  /** A parsed JSON value (numbers are integers here). */
  datatype Json =
    | Null
    | Boolean(b: bool)
    | Number(n: int)
    | Str(s: string)
    | Array(items: seq<Json>)
    | Object(fields: map<string, Json>)

  /** One role-tagged message of a chat request. */
  datatype ChatMessage = ChatMessage(role: Role, content: string)

  /** What one call to the service yields: an answer, or a failure carrying
      the message of whatever went wrong (transport error, provider error,
      unparseable JSON - all normalised alike, with no retry). */
  datatype Completion<+T> = Answer(value: T) | Failed(message: string)

  /** The structured entry point: one of the fixed system prompts and a
      user prompt, to a JSON object. */
  type Structured = (SystemPrompt, string) -> Completion<map<string, Json>>

  /** The conversation entry point: an ordered history to the reply text. */
  type Chat = seq<ChatMessage> -> Completion<string>

  /** Routes re-raise any gateway failure as `OpenAIError(str(e))`; the
      string of an `AppError` is its message, so the message survives. */
  function AsOpenAIError<C, T>(c: Completion<C>): (r: Result<T>)
    requires c.Failed?
    ensures r.Err? && r.failure.AppFailure?
    ensures r.failure.error == AppError(c.message, 500)
    ensures KindOf(r.failure.error.statusCode) == Some(OpenAIFailure)
  {
    Throw(OpenAIFailure, c.message)
  }
}
