/** The client side of the fraud check: one request to the fraud-check
    endpoint, and a permissive fallback result whenever that request fails.
    The request itself (fetch, HTTP, JSON decoding) is a parameter: a function
    from the request to the outcome the transport delivers. */
module FraudDetector {
  import opened Wrappers
  import opened Numerics

  /** The stream the user is about to create, as sent to the endpoint.
      `duration` is in seconds and is a JavaScript number, so it may be NaN. */
  datatype FraudCheckInput = FraudCheckInput(
    recipient: string,
    amount: string,
    duration: JsNumber,
    senderAddress: string)

  /** The recommendation string of a result. The code compares it with
      "proceed", "warn" and "block"; anything else the endpoint sends is kept
      as it is. */
  datatype Recommendation = Proceed | Warn | Block | Unrecognised(text: string)

  /** The endpoint's verdict. `riskScore` is a JSON number, so it may be
      fractional. */
  datatype FraudCheckResult = FraudCheckResult(
    riskScore: real,
    riskFactors: seq<string>,
    recommendation: Recommendation,
    message: string)

  /** The body of a successful response once decoded: a result object, the
      JSON literal `null`, or text that is not JSON (decoding throws). */
  datatype ResponseBody = Json(result: FraudCheckResult) | JsonNull | NotJson

  /** What the transport delivers: a response with a success status and its
      body, a response with an error status, or a network error. */
  datatype TransportOutcome = Ok(body: ResponseBody) | NotOk | NetworkError

  /** The risk factor and the message of the fallback result. */
  const ServiceErrorFactor: string := "Detection service error"
  const FallbackMessage: string := "Fraud detection temporarily unavailable. Please double-check the details."

  /** The result returned when the check cannot be completed: a moderate risk
      score, one risk factor naming the failure, and "proceed". */
  function Fallback(): (r: FraudCheckResult)
    ensures r.recommendation == Proceed
    ensures r.riskScore == 30.0
    ensures r.riskFactors == [ServiceErrorFactor]
    ensures r.message == FallbackMessage
  {
    FraudCheckResult(30.0, [ServiceErrorFactor], Proceed, FallbackMessage)
  }

  /** True when the request did not produce a decoded body: an error status,
      a network error, or a body that is not JSON. */
  predicate Failed(outcome: TransportOutcome) {
    outcome.NotOk? || outcome.NetworkError? || (outcome.Ok? && outcome.body.NotJson?)
  }

  /** `detectCreationFraud(stream)`: the decoded body when the request
      succeeds, `None` for a `null` body (which the function returns as it
      is), and the fallback result on every failure, which it catches. */
  function DetectCreationFraud(stream: FraudCheckInput, transport: FraudCheckInput -> TransportOutcome)
    : (r: Option<FraudCheckResult>)
    ensures r.None? <==> transport(stream) == Ok(JsonNull)
    ensures r.Some? && r.value != Fallback() ==> transport(stream) == Ok(Json(r.value))
    ensures Failed(transport(stream)) ==> r == Some(Fallback())
  {
    match transport(stream)
    case NotOk => Some(Fallback())
    case NetworkError => Some(Fallback())
    case Ok(body) =>
      match body
      case Json(result) => Some(result)
      case JsonNull => None
      case NotJson => Some(Fallback())
  }

  /** The detector never throws: every failure of the request becomes the
      fallback result, whose recommendation is "proceed" (the check fails
      open). */
  lemma FailureFallsBack(stream: FraudCheckInput, transport: FraudCheckInput -> TransportOutcome)
    requires Failed(transport(stream))
    ensures DetectCreationFraud(stream, transport) == Some(Fallback())
    ensures DetectCreationFraud(stream, transport).value.recommendation == Proceed
  {
  }

  /** An error status is handled exactly like a network error: the throw on
      a response that is not ok lands in the same `catch`. */
  lemma NotOkLikeNetworkError(stream: FraudCheckInput, t1: FraudCheckInput -> TransportOutcome,
                              t2: FraudCheckInput -> TransportOutcome)
    requires t1(stream) == NotOk && t2(stream) == NetworkError
    ensures DetectCreationFraud(stream, t1) == DetectCreationFraud(stream, t2)
  {
  }

  /** A decoded result object is passed on unchanged, whatever it says; so is
      a `null` body, as `None`. */
  lemma SuccessPassesThrough(stream: FraudCheckInput, transport: FraudCheckInput -> TransportOutcome)
    requires transport(stream).Ok?
    ensures transport(stream).body.Json? ==>
              DetectCreationFraud(stream, transport) == Some(transport(stream).body.result)
    ensures transport(stream).body.JsonNull? <==> DetectCreationFraud(stream, transport) == None
  {
  }

  /** A "block" verdict can come only from the endpoint: the detector never
      invents one. */
  lemma BlockOnlyFromEndpoint(stream: FraudCheckInput, transport: FraudCheckInput -> TransportOutcome)
    requires DetectCreationFraud(stream, transport).Some?
    requires DetectCreationFraud(stream, transport).value.recommendation == Block
    ensures transport(stream).Ok? && transport(stream).body.Json?
    ensures transport(stream).body.result.recommendation == Block
  {
  }
}
