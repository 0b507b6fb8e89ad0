/** How the client code turns a failed `fetch` into an error message. Each
    handler runs `fetch` and `response.json()` inside `try`, throws
    `new Error(data.message || default)` on a non-ok response, and in `catch`
    keeps `error.message` when the thrown value is an `Error`. */
module Transport {
  import opened Wrappers
  import opened Text

  /** A thrown value: an `Error` (with its message) or anything else. */
  datatype Thrown = ErrorObject(message: string) | NonError

  /** Why a request did not succeed: the server answered with a non-ok
      status (and maybe a `message`), or the call itself threw (network
      failure, unreadable JSON). */
  datatype Failure =
    | NotOk(serverMessage: Option<string>)
    | Threw(thrown: Thrown)

  /** The value the `try` block throws for a failure. */
  function Raise(f: Failure, notOkDefault: string): (t: Thrown)
    ensures f.NotOk? ==> t.ErrorObject?
    ensures f.NotOk? && Truthy(f.serverMessage) ==> t == ErrorObject(f.serverMessage.value)
    ensures f.NotOk? && !Truthy(f.serverMessage) ==> t == ErrorObject(notOkDefault)
    ensures f.Threw? ==> t == f.thrown
  {
    match f
    case NotOk(m) => ErrorObject(if Truthy(m) then m.value else notOkDefault)
    case Threw(t) => t
  }

  /** The message the `catch` block records: `err instanceof Error ? err.message : fallback`. */
  function Caught(t: Thrown, fallback: string): (m: string)
    ensures t.ErrorObject? ==> m == t.message
    ensures t == NonError ==> m == fallback
  {
    match t
    case ErrorObject(m) => m
    case NonError => fallback
  }

  /** The message recorded for a failure: the server's message when it gave
      a non-empty one, the handler's default for a non-ok answer without one,
      the thrown error's own message, or the fallback for a non-`Error` throw. */
  lemma FailureMessage(f: Failure, notOkDefault: string, fallback: string)
    ensures f.NotOk? && Truthy(f.serverMessage) ==> Caught(Raise(f, notOkDefault), fallback) == f.serverMessage.value
    ensures f.NotOk? && !Truthy(f.serverMessage) ==> Caught(Raise(f, notOkDefault), fallback) == notOkDefault
    ensures f == Threw(NonError) ==> Caught(Raise(f, notOkDefault), fallback) == fallback
    ensures f.Threw? && f.thrown.ErrorObject? ==> Caught(Raise(f, notOkDefault), fallback) == f.thrown.message
  {
  }
}
