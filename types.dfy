/**
 * The values that flow through one verification call: the decoded answer of the
 * remote verification service, the caller's verification options, the client
 * holding the secret, and the outcome of the acceptance policy.
 */
module Types {
  import opened Wrappers

  /** A byte of a response body. */
  newtype byte = x: int | 0 <= x < 256

  /** Minimum score demanded of a scoring (v3) response when the caller sets none. */
  const DefaultThreshold: real := 0.5

  /**
   * The decoded answer of the verification service. Fields that the service may
   * omit are optional, so that "absent" and "present with a zero value" differ:
   * a score of 0.0 is not a missing score, and an empty error list is not a
   * missing one.
   */
  datatype Response = Response(
    success: bool,                   // the token was valid for this site
    challengeTs: real,               // when the challenge was loaded, in seconds
    score: Option<real>,             // risk score, scoring (v3) version only
    action: Option<string>,          // action name, scoring (v3) version only
    hostname: string,                // site where the challenge was solved ("" if omitted)
    apkPackageName: Option<string>,  // app package, app-originated tokens only
    errorCodes: Option<seq<string>>  // remote error codes, when the field is present
  )

  /**
   * What the caller expects of the response. A zero value (0.0 or "") switches
   * the corresponding check off; `remoteIp` only travels with the request.
   */
  datatype VerifyOption = VerifyOption(
    threshold: real,
    action: string,
    hostname: string,
    apkPackageName: string,
    responseTime: real,
    remoteIp: string
  )

  /** The options of a plain `Verify`: every field at its zero value. */
  const NoOptions: VerifyOption := VerifyOption(0.0, "", "", "", 0.0, "")

  /** The decision of the acceptance policy; each rejection carries what it saw and what it wanted. */
  datatype Outcome =
    | Accept
    | RemoteError(codes: seq<string>)
    | ChallengeFailed
    | HostnameMismatch(got: string, want: string)
    | ResponseTooSlow(spent: real, limit: real)
    | ApkMismatch(got: string, want: string)
    | ActionMismatch(got: string, want: string)
    | ScoreTooLow(score: real, threshold: real)

  /** A configured client: the shared secret sent with every verification request. */
  datatype ReCaptcha = ReCaptcha(secret: string)

  /** The only way construction can fail. */
  datatype ConfigError = BlankSecret

  /** Failures before the policy is reached: the request could not be made, or the body did not decode. */
  datatype FetchError = TransportError(message: string) | DecodeError(message: string)

  /**
   * What the HTTP exchange yields: no response at all (the POST failed and the
   * response is nil), a response that comes with an error (the POST stopped, for
   * instance at the redirect limit), a response whose body could not be read,
   * or the bytes of the body.
   */
  datatype Exchange =
    | NoResponse(message: string)
    | ResponseWithError(message: string)
    | BodyUnreadable(message: string)
    | Body(bytes: seq<byte>)

  /** The form fields of a request, as Go's url.Values: each key maps to its values in the order added. */
  type FormValues = map<string, seq<string>>
}
