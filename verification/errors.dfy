/** The error values of the client and the status-code classifier (errors.go). */
module Errors {
  import opened Wrappers
  import opened Decimal

  /** The HTTP status codes the classifier and the client compare against,
      as fasthttp names them. */
  const StatusOK: GoInt := 200
  const StatusNoContent: GoInt := 204
  const StatusTooManyRequests: GoInt := 429

  const TooManyRequestsMessage: string := "too many Mojang API requests"
  const NoContentMessage: string := "no Mojang API result"

  /** A Go `error` value. The two package sentinels are variants of their own;
      every other error (one made by the classifier's default case, one from the
      transport or from the JSON decoder) is known only by its message. */
  datatype Error = TooManyRequests | NoContent | Other(msg: string)

  /** An error made outside this package, by the transport or by the JSON
      decoder: neither can produce one of the two package sentinels. */
  type ForeignError = e: Error | e.Other? witness Other("")

  /** What `err.Error()` returns. */
  function Message(e: Error): string {
    match e
    case TooManyRequests => TooManyRequestsMessage
    case NoContent => NoContentMessage
    case Other(m) => m
  }

  /** `errorFromCode`: total over Go's `int`, never nil. 429 and 204 map to the
      sentinels; every other code to an error that carries the code as its message. */
  function ErrorFromCode(statusCode: GoInt): (e: Error)
    ensures e == TooManyRequests <==> statusCode == StatusTooManyRequests
    ensures e == NoContent <==> statusCode == StatusNoContent
    ensures e.Other? ==> Atoi(e.msg) == Some(statusCode)
  {
    if statusCode == StatusTooManyRequests then TooManyRequests
    else if statusCode == StatusNoContent then NoContent
    else AtoiOfItoa(statusCode); Other(Itoa(statusCode))
  }

  /** The status code an error stands for, read back from the error alone:
      the inverse of `ErrorFromCode`. */
  function CodeOf(e: Error): Option<GoInt> {
    match e
    case TooManyRequests => Some(StatusTooManyRequests)
    case NoContent => Some(StatusNoContent)
    case Other(m) => Atoi(m)
  }

  /** The classifier loses nothing: the code is recoverable from the error. */
  lemma CodeOfErrorFromCode(statusCode: GoInt)
    ensures CodeOf(ErrorFromCode(statusCode)) == Some(statusCode)
  {
    if statusCode != StatusTooManyRequests && statusCode != StatusNoContent {
      AtoiOfItoa(statusCode);
    }
  }

  /** The default case renders the code itself, so an `Other` error from the
      classifier has exactly the decimal spelling of the code as its message. */
  lemma DefaultCaseMessage(statusCode: GoInt)
    requires statusCode != StatusTooManyRequests && statusCode != StatusNoContent
    ensures Message(ErrorFromCode(statusCode)) == Itoa(statusCode)
  {
  }

  /** A default-case error never reads like a sentinel: the sentinel messages
      start with a letter, a rendered code with a digit or a minus sign.
      The two sentinels differ from each other as well. */
  lemma DefaultCaseIsNoSentinel(statusCode: GoInt)
    requires statusCode != StatusTooManyRequests && statusCode != StatusNoContent
    ensures Message(ErrorFromCode(statusCode)) != TooManyRequestsMessage
    ensures Message(ErrorFromCode(statusCode)) != NoContentMessage
    ensures Message(TooManyRequests) != Message(NoContent)
  {
    var m := Message(ErrorFromCode(statusCode));
    assert IsDigit(m[0]) || m[0] == '-';
    assert TooManyRequestsMessage[0] == 't' && NoContentMessage[0] == 'n';
  }

  /** Reading a message back: a sentinel's message gives its code, any other
      message is parsed as a number. */
  function CodeOfMessage(m: string): Option<GoInt> {
    if m == TooManyRequestsMessage then Some(StatusTooManyRequests)
    else if m == NoContentMessage then Some(StatusNoContent)
    else Atoi(m)
  }

  /** Even with error identity forgotten, the message of a classified error
      determines the status code it came from. */
  lemma CodeOfMessageOfErrorFromCode(statusCode: GoInt)
    ensures CodeOfMessage(Message(ErrorFromCode(statusCode))) == Some(statusCode)
  {
    if statusCode != StatusTooManyRequests && statusCode != StatusNoContent {
      DefaultCaseIsNoSentinel(statusCode);
      AtoiOfItoa(statusCode);
    }
  }

  /** Two codes with the same classified message are the same code. */
  lemma ErrorFromCodeMessageInjective(a: GoInt, b: GoInt)
    ensures Message(ErrorFromCode(a)) == Message(ErrorFromCode(b)) ==> a == b
  {
    CodeOfMessageOfErrorFromCode(a);
    CodeOfMessageOfErrorFromCode(b);
  }
}
