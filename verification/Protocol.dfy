/** The events of a prompt response and what a completed provider call returns
    (internal/protocol/types.go, internal/provider/provider.go). */
module Protocol {
  import opened Base

  /** One Server-Sent Event of a prompt response. */
  datatype Payload =
    | Token(delta: string)
    | Done(finishReason: string)
    | Error(code: string, message: string)

  /** What StreamCompletion returns: accumulated text, or an error. */
  datatype Completion =
    | Completed(text: string, finishReason: string)
    | Failed(message: string)

  /** The contract of a provider call, once `accepted` lists the deltas for which
      the callback returned nil: a nil error means the full text is what was delivered. */
  ghost predicate Contract(accepted: seq<string>, c: Completion) {
    c.Completed? ==> c.text == Concat(accepted)
  }

  function Tokens(deltas: seq<string>): seq<Payload> {
    seq(|deltas|, i requires 0 <= i < |deltas| => Token(deltas[i]))
  }
}
