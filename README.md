# go-recaptcha verification core, modelled in Dafny

This project models the verification protocol of the `recaptcha` Go package:

- the client is built from a secret, and a blank secret is refused;
- the form of the verification request is assembled: `secret`, `response`, and `remoteip` only when one is given;
- the service's answer is decoded after one leading UTF-8 byte-order mark is stripped;
- the caller's acceptance policy is applied to the decoded answer.

The policy is a fixed chain of checks that stops at the first failure. The checks, in order, cover:

1. remote error codes;
2. the success flag;
3. the hostname;
4. the response time;
5. the APK package name;
6. the scoring-version (v3) action;
7. the scoring-version (v3) score.

Files:

- `wrappers.dfy`: `Option` and `Result`.
- `types.dfy`: the data model.
  - `Response` is the decoded answer. Go's pointer fields become `Option`, so "absent" and "present with a zero value" stay distinct.
  - `VerifyOption` is the caller's options, and `Outcome` is the decision with each rejection's observed and expected values.
  - Also here: the client `ReCaptcha` and the error types.
- `policy.dfy`: `confirm` and `confirmV3` as the functions `Confirm` and `ConfirmV3`. Beside them is an independent statement of the same policy:
  - each check as a `Stage` judged on its own (`Verdict`);
  - the order of the checks as data (`Order`);
  - short-circuit evaluation as `FirstFailure`;
  - acceptance as a plain conjunction (`Admissible`).

  Lemmas connect the two statements and prove the policy's edge cases.
- `decoder.dfy`: `bytes.TrimPrefix`, byte-order-mark stripping, and `unmarshal` over a decoder that is passed in.
- `client.dfy`: the constructor, the request form as a class updated in place, and `fetch`, `VerifyWithOptions` and `Verify`. The HTTP exchange, the structured-text decoder and the clock are parameters.

The code tests only that the error-code list is present (`!= nil`), so a present but empty list also rejects. The model keeps `errorCodes` as `Option<seq<string>>`. `TestSuiteScenarios` includes this case.

## Model

| member | source | states |
|---|---|---|
| `Client.NewWithSecret` | recaptcha.go:64-71 | construction fails exactly when the secret is empty; on success the client holds the secret unchanged |
| `Policy.Threshold` | recaptcha.go:159-162 | the threshold in force is the caller's when non-zero and 0.5 otherwise, so it is never zero |
| `Policy.Confirm` | recaptcha.go:111-142 | an error-code list that is present (even empty) rejects with those codes, whatever the other fields hold. Otherwise a failed challenge rejects. Hostname, APK and action rejections carry the response's value and the expected value, which differ, and the expected value is non-empty. A time rejection carries an elapsed time above a non-zero limit. A score rejection carries a score at or below the threshold in force |
| `Policy.ConfirmV3` | recaptcha.go:145-167 | only an action mismatch or a low score can reject. A response with neither score nor action is accepted. Acceptance implies the score is absent or strictly above the threshold |
| `Policy.FirstFailure` | recaptcha.go:111-142 | short-circuit evaluation yields either Accept or one of the verdicts in the list, and Accept only if the first verdict passes |
| `Policy.FirstFailureAcceptIff` | recaptcha.go:111-142 | a chain of checks accepts if and only if every check passes |
| `Policy.FirstFailureAt` | recaptcha.go:111-142 | a rejection is the verdict at some position, and every earlier check passed |
| `Policy.ConfirmIsFirstFailure` | recaptcha.go:111-167 | the nested early returns equal short-circuit evaluation of the stages in the order error codes, success, hostname, time, APK, action, score |
| `Policy.RejectionIsFirstFailingStage` | recaptcha.go:111-167 | every rejection is the reason of the first failing stage in that order, and all stages before it pass |
| `Policy.ConfirmAcceptIff` | recaptcha.go:111-167 | the evaluator accepts if and only if the response is admissible. Admissible means no error codes and success, and each of hostname, time, APK, action and score passes or is switched off |
| `Policy.HostnameIgnoredWhenUnset` | recaptcha.go:121-125 | with an empty expected hostname, the response's hostname cannot change the outcome |
| `Policy.ElapsedIgnoredWhenUnset` | recaptcha.go:127-133 | with a zero time limit, the elapsed time cannot change the outcome |
| `Policy.ResponseTimeLimitInclusive` | recaptcha.go:127-133 | an elapsed time exactly equal to the limit is never rejected as too slow |
| `Policy.FasterStillAccepted` | recaptcha.go:127-133 | if a response is accepted at some elapsed time, it is also accepted at every smaller one |
| `Policy.ApkIgnoredWhenUnset` | recaptcha.go:134-138 | with an empty expected package name, the response's package name (present or absent) cannot change the outcome |
| `Policy.ActionIgnoredWhenUnset` | recaptcha.go:150-154 | with an empty expected action, the response's action (present or absent) cannot change the outcome |
| `Policy.ScoringOptionsIgnoredForV2` | recaptcha.go:146-149 | for a response with neither score nor action, the threshold and action options cannot change the outcome |
| `Policy.HigherScoreStillAccepted` | recaptcha.go:159-166 | raising the score of an accepted response keeps it accepted |
| `Policy.ScoreAtThresholdRejected` | recaptcha.go:159-166 | a score equal to the threshold in force is rejected |
| `Policy.DefaultOptionsAcceptIff` | recaptcha.go:74-76 | under the options of a plain `Verify`, a response is accepted if and only if it has no error codes, succeeded, and has no score or a score above 0.5 |
| `Policy.TestSuiteScenarios` | recaptcha_test.go:87-214 | the suite's scenarios, with their exact outcomes and values: unsuccessful, hostname mismatch, package mismatch, score 0.4 against 0.6 and against the default, action mismatch, action without expectation, no score or action, and score 1.0 under the defaults accepting. Also: score 0.5 rejects, 0.50001 accepts, and a present empty error list rejects |
| `Policy.TestSuiteResponseTimeScenario` | recaptcha_test.go:115-128 | with a one-second limit and more than one second elapsed, a successful response is rejected as too slow, carrying the elapsed time and the limit |
| `Decoder.TrimPrefix` | recaptcha.go:192 | when the input starts with the prefix, the prefix followed by the result rebuilds the input; otherwise the input is returned unchanged |
| `Decoder.TrimBom` | recaptcha.go:192 | a body that starts with the byte-order mark loses exactly that mark (the mark followed by the result rebuilds the body); any other body is returned unchanged |
| `Decoder.TrimBomRemovesMark` | recaptcha.go:192 | stripping the byte-order mark from a marked body gives back the body |
| `Decoder.TrimBomKeepsUnmarked` | recaptcha.go:192 | a body not starting with the mark is returned unchanged |
| `Decoder.TrimBomOnlyOnce` | recaptcha.go:192 | a doubled mark loses only its first copy |
| `Decoder.TrimBomIsSuffix` | recaptcha.go:192 | the stripped body is either the whole body, or the body minus exactly its three leading mark bytes |
| `Decoder.Unmarshal` | recaptcha.go:186-203 | decoding succeeds exactly when the decoder accepts the body without its mark, and then yields the decoder's result. Otherwise it fails with a DecodeError carrying the decoder's message |
| `Decoder.UnmarshalIgnoresBom` | recaptcha.go:192-198 | a body and the same body prefixed with the mark decode to the same result |
| `Client.Form.constructor` | recaptcha.go:90-91 | a new request form has no fields |
| `Client.Form.Add` | recaptcha.go:92-95 | adding appends the value to the key's values and leaves every other key as it was |
| `Client.RequestFormUnique` | recaptcha.go:91-96 | the request fields are fully determined by the secret, the token and the remote address |
| `Client.ReceiveAsWritten` | recaptcha.go:99-105 | the step after the POST as written: it crashes (no result) exactly when the POST returns no response. A response that comes with an error and an unreadable body each yield a TransportError with their message, and a body yields its decoding |
| `Client.NoResponseCrashesAsWritten` | recaptcha.go:99-103 | as written, a POST that returns no response ends in a nil dereference rather than an error value |
| `Client.Receive` | recaptcha.go:99-105 | the corrected step: no response, a response with an error, and an unreadable body each become a TransportError with its message. A body that was read gives exactly its decoding by `Unmarshal`, including the DecodeError of a body the decoder refuses. The step succeeds exactly when a body was read and the decoder accepts it |
| `Client.ReceiveAgreesUnlessNoResponse` | recaptcha.go:99-105 | the source crashes exactly when the POST returns no response. In every other case, including a response that comes with an error and an unreadable body, it agrees with `Receive` |
| `Client.Fetch` | recaptcha.go:89-109 | the form handed to the POST holds secret and token once each and remoteip exactly when it is non-empty, and nothing else. The answer is handled by the corrected step `Receive` (see Findings): an exchange without a body is returned as a TransportError and a body as its decoding |
| `Client.VerifyWithOptions` | recaptcha.go:80-87 | the request form is as above. The answer goes through the corrected step `Receive` (see Findings), and its failure is returned unchanged. Otherwise the decision is the policy applied at elapsed time `now - challengeTs`, and it accepts exactly the admissible responses |
| `Client.Verify` | recaptcha.go:74-76 | the outcome is that of `VerifyWithOptions` with every option at zero: no remoteip field is sent, a fetch failure is returned unchanged, and the decision is the policy under zero options. Acceptance means no error codes, success, and no score or a score above the default threshold |

## Left out

- The HTTP POST and reading the answer's body are one parameter, `post`. It maps the form to one of four exchanges: no response, a response with an error, an unreadable body, or the body's bytes. A body-read error, which the source reports from `unmarshal`, becomes a TransportError. Form URL-encoding (`Form.Encode`) is not modelled.
- The structured-text (JSON) decoding and RFC 3339 timestamp parsing are not modelled. They are the parameter `parse`. The model therefore does not capture two behaviours of that decoder. Malformed text, including a malformed `challenge_ts`, fails the decode. A missing or null `challenge_ts` gives the zero time.
- The clock read `time.Since` is replaced by a `now` parameter to `VerifyWithOptions`, and `Confirm` receives the elapsed seconds. Go's nanosecond `Duration` and its saturation on very old timestamps are not modelled. Elapsed time is exact real subtraction.
- Scores, thresholds and times are `real`, not IEEE-754 `float64`: there is no rounding and no NaN. The source only compares scores and thresholds and never computes them. The elapsed time is computed (`time.Since(...).Seconds()`), and the model takes it as exact.
- The text of error messages (`%v`, `%s`, `%f` formatting) is not modelled. Each reason is an `Outcome` constructor that carries its values.
- Logging is not modelled: `init`, `logger`, `showDebug`, and the diagnostic first decode in `unmarshal`. That first decode's result and error are discarded, so it has no effect on outcomes.
- `NewReCAPTCHA` is not modelled. It reads the environment and delegates to the modelled constructor.
- example/main.go is not part of this model (web-framework glue).
- Go strings are byte strings; the model uses `seq<char>`. The source only tests them for emptiness and equality.

## Findings

| source | as written | input that shows it | evidently intended | confidence | as-written member | corrected member |
|---|---|---|---|---|---|---|
| recaptcha.go:99-101 | `defer resp.Body.Close()` runs before `err` is checked, and evaluating `resp.Body` dereferences `resp` | a POST that returns no response, such as one to an unreachable host: `http.Post` returns a nil response and an error | return the transport error to the caller | high, not executed | `Client.NoResponseCrashesAsWritten` | `Client.Receive` |
