/** The client operation that fetches the service status (client.go).
    The HTTP request itself is outside the model: its outcome is an input. */
module Client {
  import opened Wrappers
  import opened Decimal
  import opened Errors
  import opened ServiceStatus

  /** What the transport's GET returned: a status code and a body, or an error
      (in which case code and body carry no meaning). */
  datatype TransportOutcome = TransportOutcome(code: GoInt, body: Bytes, err: Option<ForeignError>)

  /** `FetchStatus`: a transport error is passed through untouched; any code
      other than exactly 200 is classified; only a 200 body is decoded. */
  function FetchStatus(outcome: TransportOutcome, unmarshal: Bytes -> Decoded): (r: Result<Status, Error>)
    ensures outcome.err.Some? ==> r == Failure(outcome.err.value)
    ensures outcome.err.None? && outcome.code != StatusOK ==> r.Failure? && CodeOf(r.error) == Some(outcome.code)
    ensures outcome.err.None? && outcome.code == StatusOK && unmarshal(outcome.body).ParseFailure? ==>
      r == Failure(unmarshal(outcome.body).err)
    ensures r.Success? <==> outcome.err.None? && outcome.code == StatusOK && unmarshal(outcome.body).Records?
  {
    if outcome.err.Some? then Failure(outcome.err.value)
    else if outcome.code != StatusOK then
      CodeOfErrorFromCode(outcome.code);
      Failure(ErrorFromCode(outcome.code))
    else ParseStatusFromBody(outcome.body, unmarshal)
  }

  /** A non-200 answer without a transport error yields exactly the
      classifier's error for that code. */
  lemma FetchStatusClassifiesOtherCodes(outcome: TransportOutcome, unmarshal: Bytes -> Decoded)
    requires outcome.err.None? && outcome.code != StatusOK
    ensures FetchStatus(outcome, unmarshal) == Failure(ErrorFromCode(outcome.code))
  {
  }

  /** A 200 answer without a transport error is exactly the decoding of its body. */
  lemma FetchStatusDecodesOn200(outcome: TransportOutcome, unmarshal: Bytes -> Decoded)
    requires outcome.err.None? && outcome.code == StatusOK
    ensures FetchStatus(outcome, unmarshal) == ParseStatusFromBody(outcome.body, unmarshal)
  {
  }

  /** The sentinels only ever come from the classifier: no-content means the
      answer was a 204, rate-limited means it was a 429. */
  lemma FetchStatusSentinelsOnlyFromCodes(outcome: TransportOutcome, unmarshal: Bytes -> Decoded)
    ensures FetchStatus(outcome, unmarshal) == Failure(NoContent) <==>
      outcome.err.None? && outcome.code == StatusNoContent
    ensures FetchStatus(outcome, unmarshal) == Failure(TooManyRequests) <==>
      outcome.err.None? && outcome.code == StatusTooManyRequests
  {
  }

  /** On a transport error or a non-200 code the body is never decoded: the
      result is the same whatever the body and whatever the decoder would
      have made of it. */
  lemma FetchStatusIgnoresBodyUnless200(
    outcome: TransportOutcome, body: Bytes, unmarshal: Bytes -> Decoded, unmarshal': Bytes -> Decoded)
    requires outcome.err.Some? || outcome.code != StatusOK
    ensures FetchStatus(outcome, unmarshal) == FetchStatus(outcome.(body := body), unmarshal')
  {
  }

  /** A snapshot is returned only for a 200 answer whose body decoded, and then
      every field holds the last status reported for its key, or "". */
  lemma FetchStatusSuccess(outcome: TransportOutcome, unmarshal: Bytes -> Decoded)
    requires FetchStatus(outcome, unmarshal).Success?
    ensures outcome.err.None? && outcome.code == StatusOK
    ensures unmarshal(outcome.body).Records?
    ensures forall c: Channel ::
      Get(FetchStatus(outcome, unmarshal).value, c) == LastStatus(unmarshal(outcome.body).records, KeyOf(c)).GetOr("")
  {
  }

  /** 204 is not success: it is reported as the no-content sentinel. */
  lemma FetchStatusNoContent(outcome: TransportOutcome, unmarshal: Bytes -> Decoded)
    requires outcome.err.None? && outcome.code == StatusNoContent
    ensures FetchStatus(outcome, unmarshal) == Failure(NoContent)
  {
  }

  /** 429 is reported as the rate-limit sentinel. */
  lemma FetchStatusTooManyRequests(outcome: TransportOutcome, unmarshal: Bytes -> Decoded)
    requires outcome.err.None? && outcome.code == StatusTooManyRequests
    ensures FetchStatus(outcome, unmarshal) == Failure(TooManyRequests)
  {
  }

  /** Other 2xx codes are not success either: 201 becomes an error whose
      message is "201". */
  lemma FetchStatusCreatedIsError(outcome: TransportOutcome, unmarshal: Bytes -> Decoded)
    requires outcome.err.None? && outcome.code == 201
    ensures FetchStatus(outcome, unmarshal) == Failure(Other("201"))
  {
    assert NatDigits(2) == "2";
    assert NatDigits(20) == NatDigits(2) + [DigitChar(0)] == "20";
    assert NatDigits(201) == NatDigits(20) + [DigitChar(1)] == "201";
    assert Itoa(201) == "201";
  }
}
