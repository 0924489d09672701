/**
 * The client side of the protocol: constructing a client from its secret,
 * assembling the form of a verification request, receiving the answer and
 * applying the acceptance policy to it. The HTTP exchange is a parameter.
 */
module Client {
  import opened Wrappers
  import opened Types
  import opened Policy
  import opened Decoder

  /** A client for the given secret; a blank secret is refused. */
  function NewWithSecret(secret: string): (r: Result<ReCaptcha, ConfigError>)
    ensures r.Failure? <==> secret == ""
    ensures r.Success? ==> r.value.secret == secret
  {
    if |secret| == 0 then Failure(BlankSecret) else Success(ReCaptcha(secret))
  }

  /** Every value recorded under `key`, in the order added (none if the key is absent). */
  function ValuesFor(values: FormValues, key: string): (recorded: seq<string>)
  {
    if key in values then values[key] else []
  }

  /** The mutable form of an outgoing request. */
  class Form {
    var values: FormValues

    /** An empty form, as parsing the form of a request with no body gives. */
    constructor ()
      ensures values == map[]
    {
      values := map[];
    }

    /** Appends `value` to the values of `key`, keeping those already there. */
    method Add(key: string, value: string)
      modifies this
      ensures values == old(values)[key := ValuesFor(old(values), key) + [value]]
    {
      values := values[key := ValuesFor(values, key) + [value]];
    }
  }

  /**
   * The fields of a verification request: the secret and the token, each once,
   * and the remote address once exactly when it is non-empty; nothing else.
   */
  predicate IsRequestForm(form: FormValues, secret: string, token: string, remoteIp: string)
  {
    && form.Keys == {"secret", "response"} + (if |remoteIp| > 0 then {"remoteip"} else {})
    && form["secret"] == [secret]
    && form["response"] == [token]
    && (|remoteIp| > 0 ==> form["remoteip"] == [remoteIp])
  }

  /** The request fields are determined by the secret, the token and the remote address. */
  lemma RequestFormUnique(form: FormValues, form': FormValues, secret: string, token: string, remoteIp: string)
    requires IsRequestForm(form, secret, token, remoteIp)
    requires IsRequestForm(form', secret, token, remoteIp)
    ensures form == form'
  {
  }

  /**
   * The step of fetch after the POST as the source writes it: the response
   * body's closing is deferred before the error of the POST is looked at, which
   * dereferences the response. When the POST returns no response that is a nil
   * dereference, here `None`; every other exchange reaches an error value or
   * the decoder.
   */
  function ReceiveAsWritten(posted: Exchange, parse: seq<byte> -> Result<Response, string>)
    : (received: Option<Result<Response, FetchError>>)
    ensures received.None? <==> posted.NoResponse?
    ensures posted.ResponseWithError? || posted.BodyUnreadable? ==>
              received == Some(Failure(TransportError(posted.message)))
    ensures posted.Body? ==> received == Some(Unmarshal(posted.bytes, parse))
  {
    match posted
    case NoResponse(_) => None
    case ResponseWithError(message) => Some(Failure(TransportError(message)))
    case BodyUnreadable(message) => Some(Failure(TransportError(message)))
    case Body(bytes) => Some(Unmarshal(bytes, parse))
  }

  /** As written, a POST that returns no response ends in the nil dereference instead of an error value. */
  lemma NoResponseCrashesAsWritten(message: string, parse: seq<byte> -> Result<Response, string>)
    ensures ReceiveAsWritten(NoResponse(message), parse).None?
  {
  }

  /**
   * The step of fetch after the POST, with the error of the POST checked before
   * the response is touched: every exchange that yields no body is surfaced as
   * a TransportError carrying its message.
   */
  function Receive(posted: Exchange, parse: seq<byte> -> Result<Response, string>)
    : (r: Result<Response, FetchError>)
    ensures !posted.Body? ==> r == Failure(TransportError(posted.message))
    ensures posted.Body? ==> r == Unmarshal(posted.bytes, parse)
    ensures r.Success? <==> posted.Body? && parse(TrimBom(posted.bytes)).Success?
    ensures r.Success? ==> r.value == parse(TrimBom(posted.bytes)).value
  {
    match posted
    case Body(bytes) => Unmarshal(bytes, parse)
    case _ => Failure(TransportError(posted.message))
  }

  /** The source crashes exactly when the POST returns no response, and otherwise agrees with the corrected step. */
  lemma ReceiveAgreesUnlessNoResponse(posted: Exchange, parse: seq<byte> -> Result<Response, string>)
    ensures ReceiveAsWritten(posted, parse).None? <==> posted.NoResponse?
    ensures !posted.NoResponse? ==> ReceiveAsWritten(posted, parse) == Some(Receive(posted, parse))
  {
  }

  /**
   * Builds the request form, sends it with `post` and decodes the answer with
   * `parse`. `sent` is the form that was handed to `post`.
   */
  method Fetch(r: ReCaptcha, token: string, remoteIp: string,
               post: FormValues -> Exchange,
               parse: seq<byte> -> Result<Response, string>)
    returns (sent: FormValues, res: Result<Response, FetchError>)
    ensures IsRequestForm(sent, r.secret, token, remoteIp)
    ensures !post(sent).Body? ==> res == Failure(TransportError(post(sent).message))
    ensures post(sent).Body? ==> res == Unmarshal(post(sent).bytes, parse)
  {
    var form := new Form();
    form.Add("secret", r.secret);
    form.Add("response", token);
    if |remoteIp| > 0 {
      form.Add("remoteip", remoteIp);
    }
    sent := form.values;
    res := Receive(post(sent), parse);
  }

  /**
   * Fetches and decodes the answer for `token`, then applies the policy of
   * `options` at time `now` (in the seconds of `challengeTs`).
   */
  method VerifyWithOptions(r: ReCaptcha, token: string, options: VerifyOption,
                           post: FormValues -> Exchange,
                           parse: seq<byte> -> Result<Response, string>, now: real)
    returns (sent: FormValues, verdict: Result<Outcome, FetchError>)
    ensures IsRequestForm(sent, r.secret, token, options.remoteIp)
    ensures verdict.Failure? <==> Receive(post(sent), parse).Failure?
    ensures verdict.Failure? ==> verdict.error == Receive(post(sent), parse).error
    ensures verdict.Success? ==>
              var res := Receive(post(sent), parse).value;
              && verdict.value == Confirm(res, options, now - res.challengeTs)
              && (verdict.value == Accept <==> Admissible(res, options, now - res.challengeTs))
  {
    var fetched;
    sent, fetched := Fetch(r, token, options.remoteIp, post, parse);
    match fetched
    case Failure(e) =>
      verdict := Failure(e);
    case Success(res) =>
      var elapsed := now - res.challengeTs;
      ConfirmAcceptIff(res, options, elapsed);
      verdict := Success(Confirm(res, options, elapsed));
  }

  /** VerifyWithOptions with every option at its zero value. */
  method Verify(r: ReCaptcha, token: string,
                post: FormValues -> Exchange,
                parse: seq<byte> -> Result<Response, string>, now: real)
    returns (sent: FormValues, verdict: Result<Outcome, FetchError>)
    ensures IsRequestForm(sent, r.secret, token, "") && "remoteip" !in sent
    ensures verdict.Failure? <==> Receive(post(sent), parse).Failure?
    ensures verdict.Failure? ==> verdict.error == Receive(post(sent), parse).error
    ensures verdict.Success? ==>
              var res := Receive(post(sent), parse).value;
              verdict.value == Confirm(res, NoOptions, now - res.challengeTs)
    ensures verdict.Success? ==>
              var res := Receive(post(sent), parse).value;
              verdict.value == Accept <==>
                res.errorCodes.None? && res.success && (res.score.None? || DefaultThreshold < res.score.value)
  {
    sent, verdict := VerifyWithOptions(r, token, NoOptions, post, parse, now);
    if verdict.Success? {
      var res := Receive(post(sent), parse).value;
      DefaultOptionsAcceptIff(res, now - res.challengeTs);
    }
  }
}
