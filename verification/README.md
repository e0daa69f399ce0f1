# mojango response handling, modelled in Dafny

This project models the part of the `mojango` Go client library that turns the
raw outcome of an HTTP request into a result. It covers three pieces:

- **Status fold** (`parseStatusFromBody`). The status endpoint answers with a JSON array of
  `{Key, Status}` records. They are folded into a fixed `Status` record with eight fields, one
  per Mojang service. The key is matched exactly and case-sensitively against eight known keys.
  Unknown keys are dropped. A key that never occurs leaves its field `""`. When a key repeats,
  the later record wins. Status strings are copied verbatim, with no check against
  `green`/`yellow`/`red`.
- **Error classifier** (`errorFromCode`). This is a total function from Go's `int` to an error:
  - 429 gives the rate-limit sentinel.
  - 204 gives the no-content sentinel.
  - Any other code gives an error whose message is `strconv.Itoa(code)`.
- **`Client.FetchStatus`**. It takes the transport's outcome:
  - A transport error is returned as it is.
  - Any code other than exactly 200 goes to the classifier.
  - A 200 body goes to the status fold.

Modules:

| file | module | contents |
|---|---|---|
| wrappers.dfy | `Wrappers` | `Option`; `Result`, standing for Go's `(value, nil)` / `(nil, err)` pair |
| decimal.dfy | `Decimal` | Go's 64-bit `int` (`GoInt`), `strconv.Itoa` and `strconv.Atoi` on it, and the round trip |
| errors.dfy | `Errors` | the `Error` values (two sentinels, `Other(msg)`), `ErrorFromCode` and its inverse `CodeOf` |
| status.dfy | `ServiceStatus` | `Status`, `RawStatus`, the key table, `Apply` (one loop step), `Fold`, `ParseStatusFromBody`, and the reference definition `LastStatus` |
| status_properties.dfy | `StatusProperties` | the fold over concatenations, last occurrence wins, unknown keys ignored, reordering of distinct keys |
| client.dfy | `Client` | `TransportOutcome` and `FetchStatus` as a pure function |

The JSON step is a parameter: `unmarshal: Bytes -> Decoded`. `Decoded` is either
`ParseFailure(err)` or `Records(records)`. The statement "the body is never decoded" on the
error paths is expressed as follows: the result is the same for every body and for every
decoder.

The field a record writes is fixed by `LastStatus(records, key)`, defined independently of the
fold. It gives the status of the last record carrying `key`, or nothing. Every field of a
folded snapshot equals `LastStatus` of its key, or `""`.

Every code other than exactly 200 reaches the classifier (client.go:27), so 201 and 204 are
errors too. The default-case error is `errors.New(strconv.Itoa(code))`, and the model proves that
the code can be read back from its message.

Errors made outside the package, by the transport or by the JSON decoder, have the type
`ForeignError`: an `Error` that is neither sentinel. So a sentinel can only come from the
classifier.

## Model

| member | source | states |
|---|---|---|
| Decimal.Itoa | errors.go:21 | the rendering of a code is non-empty, starts with `-` exactly when the code is negative, is otherwise all decimal digits, and has no leading zero except for the code 0 itself |
| Decimal.AtoiOfItoa | errors.go:21 | reading a rendered code back with `Atoi` gives the same code, negatives and the full 64-bit range included |
| Decimal.ItoaInjective | errors.go:21 | two different codes never render to the same message |
| Errors.ErrorFromCode | errors.go:14-23 | 429 and only 429 gives the rate-limit sentinel; 204 and only 204 gives the no-content sentinel; any other code gives an error whose message parses back to the code |
| Errors.CodeOfErrorFromCode | errors.go:14-23 | the classifier is lossless: `CodeOf` recovers the original code from every classified error |
| Errors.DefaultCaseMessage | errors.go:20-21 | for a code other than 429 and 204, the error message is exactly the decimal rendering of the code |
| Errors.DefaultCaseIsNoSentinel | errors.go:10-21 | a default-case message never equals either sentinel message, and the two sentinel messages differ |
| Errors.CodeOfMessageOfErrorFromCode | errors.go:10-22 | the message text alone, with error identity forgotten, determines the code it came from |
| Errors.ErrorFromCodeMessageInjective | errors.go:14-22 | two codes whose classified errors have the same message are the same code |
| ServiceStatus.ChannelOfKeyOf | status.go:42-63 | each of the eight case labels (`KeyOf`) selects its own channel, and no two channels share a label |
| ServiceStatus.ChannelOf | status.go:41-66 | a key selects a channel exactly when it equals that channel's key string; every other string, including differently capitalised ones, selects none |
| ServiceStatus.Apply | status.go:41-66 | one record with a known key writes its status verbatim into exactly its own field and leaves all other fields unchanged; a record with an unknown key changes nothing |
| ServiceStatus.Fold | status.go:40-67 | the `range` loop applying each record in turn from the starting status; its contract is stated by `FoldKeepsLastStatus` |
| ServiceStatus.FoldKeepsLastStatus | status.go:39-67 | states the contract of `Fold`, the model of the `range` loop (status.go:40-67): after the loop, each field holds the status of the last record with its key, or keeps its starting value if no record has that key |
| ServiceStatus.ParseStatusFromBody | status.go:31-71 | a decoder failure is returned unchanged with no status; a decoded array always gives a status, whose fields are the last reported statuses or `""` |
| StatusProperties.FoldAppend | status.go:40-67 | folding `a + b` equals folding `b` starting from the result of folding `a` |
| StatusProperties.ParseStatusLastOccurrenceWins | status.go:40-67 | for a key that occurs, possibly many times, the field equals the status of its last occurrence |
| StatusProperties.ParseStatusAbsentKeyIsEmpty | status.go:39 | a field whose key never occurs in the decoded array is `""` |
| StatusProperties.FoldIgnoresUnknownKey | status.go:41-66 | deleting a record with an unknown key from any position does not change the result |
| StatusProperties.ApplyCommutes | status.go:41-66 | two records with different keys can be applied in either order |
| StatusProperties.FoldSwapAdjacent | status.go:40-67 | swapping two neighbouring records with different keys does not change the result |
| StatusProperties.FoldPermutationOfDistinctKeys | status.go:40-67 | when no key repeats, every rearrangement of the records gives the same status |
| StatusProperties.ParseStatusCopiesStateVerbatim | status.go:41-43 | any status string, not only green, yellow or red, is stored as it is, and the other fields stay `""` |
| StatusProperties.KeyMatchIsCaseSensitive | status.go:41-42 | `"Minecraft.net"` is not the key `"minecraft.net"` and is ignored |
| StatusProperties.ParseStatusExample | status.go:31-71 | a red website report followed by an unknown key gives a status with only the website field set to red |
| Client.FetchStatus | client.go:20-33 | a transport error is returned as it is; a code other than 200 gives an error from which the code can be read back; a 200 with a failed decode gives the decoder's error; a status is returned exactly when the code is 200 and the body decoded |
| Client.FetchStatusClassifiesOtherCodes | client.go:27-29 | without a transport error, a code other than 200 gives exactly `errorFromCode(code)` |
| Client.FetchStatusDecodesOn200 | client.go:27-32 | without a transport error, a 200 answer gives exactly `parseStatusFromBody(body)` |
| Client.FetchStatusSentinelsOnlyFromCodes | client.go:22-32 | the no-content error is returned exactly for a 204 answer, and the rate-limit error exactly for a 429 answer |
| Client.FetchStatusIgnoresBodyUnless200 | client.go:22-29 | on a transport error or a code other than 200, the result depends neither on the body nor on the decoder |
| Client.FetchStatusSuccess | client.go:20-32 | a status is only returned for a 200 whose body decoded, and its fields are the last reported statuses or `""` |
| Client.FetchStatusNoContent | client.go:27-29 | a 204 answer is reported as the no-content sentinel, not as success |
| Client.FetchStatusTooManyRequests | client.go:27-29 | a 429 answer is reported as the rate-limit sentinel |
| Client.FetchStatusCreatedIsError | client.go:27-28 | a 201 answer is an error with message `"201"`: only 200 counts as success |

## Left out

- JSON decoding (`json.Unmarshal`, status.go:34) belongs to Go's standard library. It is a parameter `unmarshal: Bytes -> Decoded`; what it accepts is not modelled.
- The fasthttp transport, `New()` and the `Client` handle (client.go:3-17, 22) are network I/O. The outcome of the GET is an input value, `TransportOutcome(code, body, err)`, and the request URL is not part of the model.
- `FetchUUID`, `FetchUUIDAtTime`, `FetchMultipleUUIDs`, `FetchNameHistory` and `FetchProfile` (client.go:35-53) have empty bodies, so there is no behaviour to model.
- profile.go and namehistory.go only declare structs with JSON tags. They contain no logic and are not part of this model.
- Go error identity (two `errors.New` values compare by address, not by message) is not modelled. The two sentinels are datatype variants. Every other error is `Other(msg)`, known only by its message; transport and decoder errors are restricted to that variant by the type `ForeignError`.
- The parse-back function `Atoi` is modelled on `strconv.Atoi` for base 10: an optional sign, then digits, range-checked against a 64-bit `int`. Its error values are not modelled; a failure is just `None`.
- Status codes are Go's `int`, taken to be 64 bits wide. A 32-bit `int` is not modelled.
