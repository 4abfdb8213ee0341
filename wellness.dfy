/**
 * Response acceptance of the Wellness gateway client (wellness.py). Each of
 * `wln_check_payin_status`, `wln_check_payout_payment_status` and
 * `wln_create_payout_payment` posts one request and then runs a chain of
 * guards over the reply, raising at the first that fails and otherwise
 * returning the decoded body unchanged. The request itself is left out: the
 * reply, or the transport failure, is the input here.
 */
module Wellness {
  import opened Wrappers

  /** A JSON value read out of the body: absent, a string, or any other JSON value. */
  datatype Value = Absent | Str(text: string) | Other

  /** The `gateway` member of a reply body: absent, a JSON object, or some other JSON value. */
  datatype GatewayField = NoGateway | GatewayObject(gatewayStatus: Value) | GatewayNotObject

  /**
   * The body of a reply as `resp.json()` sees it: not JSON at all, JSON that
   * is not an object, or an object. Of an object the guards look only at
   * whether `status` is truthy (a missing `status` is not), at `gateway`,
   * and, for the error text, at `message`; `rest` stands for every other member.
   */
  datatype Body =
    | NotJson(text: string)
    | NotObject
    | Object(statusTruthy: bool, gateway: GatewayField, message: Value, rest: seq<(string, string)>)

  /** What came back from `requests.post`: an exception, or a reply with its HTTP status. */
  datatype Exchange = TransportFailure(reason: string) | Reply(httpStatus: int, body: Body)

  /** The exception each guard raises. */
  datatype WellnessError =
    | NetworkError      // requests raised
    | HttpError(code: int)
    | InvalidJson       // resp.json() raised
    | NotAnObject       // `.get` on a decoded value that is not a dict
    | ApiError          // `status` missing or falsy
    | GatewayFailed     // `gateway.gateway_status` not "Completed" or "Pending"

  /** Gateway states in which a created payout is accepted. */
  predicate AcceptedGatewayStatus(v: Value)
  {
    v == Str("Completed") || v == Str("Pending")
  }

  /** What a reply must be for a status lookup to return it. */
  predicate StatusAccepted(x: Exchange)
  {
    x.Reply? && x.httpStatus == 200 && x.body.Object? && x.body.statusTruthy
  }

  /** What a reply must be for a payout creation to return it. */
  predicate CreationAccepted(x: Exchange)
  {
    && StatusAccepted(x)
    && x.body.gateway.GatewayObject?
    && AcceptedGatewayStatus(x.body.gateway.gatewayStatus)
  }

  /**
   * The guards shared by the two status lookups: the HTTP status, then the
   * decoding, then `status`.
   */
  function StatusGuards(x: Exchange): (r: Result<Body, WellnessError>)
    ensures r.Ok? <==> StatusAccepted(x)
    ensures r.Ok? ==> r.value == x.body
  {
    match x
    case TransportFailure(_) => Err(NetworkError)
    case Reply(code, body) =>
      if code != 200 then Err(HttpError(code))
      else match body
        case NotJson(_) => Err(InvalidJson)
        case NotObject => Err(NotAnObject)
        case Object(truthy, _, _, _) => if !truthy then Err(ApiError) else Ok(body)
  }

  /** `wln_check_payin_status`, after the request. */
  function CheckPayinStatus(x: Exchange): (r: Result<Body, WellnessError>)
    ensures r.Ok? <==> StatusAccepted(x)
    ensures r.Ok? ==> r.value == x.body
  {
    StatusGuards(x)
  }

  /** `wln_check_payout_payment_status`, after the request. */
  function CheckPayoutStatus(x: Exchange): (r: Result<Body, WellnessError>)
    ensures r.Ok? <==> StatusAccepted(x)
    ensures r.Ok? ==> r.value == x.body
  {
    StatusGuards(x)
  }

  /** `wln_create_payout_payment`, after the request. */
  function CreatePayout(x: Exchange): (r: Result<Body, WellnessError>)
    ensures r.Ok? <==> CreationAccepted(x)
    ensures r.Ok? ==> r.value == x.body
  {
    match StatusGuards(x)
    case Err(e) => Err(e)
    case Ok(body) =>
      match body.gateway
      case GatewayNotObject => Err(NotAnObject)
      case NoGateway => Err(GatewayFailed)
      case GatewayObject(status) => if AcceptedGatewayStatus(status) then Ok(body) else Err(GatewayFailed)
  }

  /** A reply other than HTTP 200 is an error for all three operations, whatever its body. */
  lemma Non200IsHttpError(code: int, body: Body)
    requires code != 200
    ensures CheckPayinStatus(Reply(code, body)) == Err(HttpError(code))
    ensures CheckPayoutStatus(Reply(code, body)) == Err(HttpError(code))
    ensures CreatePayout(Reply(code, body)) == Err(HttpError(code))
  {
  }

  /**
   * A transport failure and a 200 reply that is not JSON are errors, never an
   * accepted payout or lookup; `wln_create_payout_payment` wraps both, the
   * lookups let the exception through.
   */
  lemma UnreadableRepliesAreErrors(reason: string, text: string)
    ensures CreatePayout(TransportFailure(reason)) == Err(NetworkError)
    ensures CreatePayout(Reply(200, NotJson(text))) == Err(InvalidJson)
    ensures CheckPayinStatus(TransportFailure(reason)) == Err(NetworkError)
    ensures CheckPayinStatus(Reply(200, NotJson(text))) == Err(InvalidJson)
    ensures CheckPayoutStatus(TransportFailure(reason)) == Err(NetworkError)
    ensures CheckPayoutStatus(Reply(200, NotJson(text))) == Err(InvalidJson)
  {
  }

  /** A 200 reply whose `status` is missing or falsy is an API error, whatever else it holds. */
  lemma FalsyStatusIsApiError(gateway: GatewayField, message: Value, rest: seq<(string, string)>)
    ensures var x := Reply(200, Object(false, gateway, message, rest));
      && CheckPayinStatus(x) == Err(ApiError)
      && CheckPayoutStatus(x) == Err(ApiError)
      && CreatePayout(x) == Err(ApiError)
  {
  }

  /**
   * Payout creation is the status guards plus the gateway check: an accepted
   * creation reply is also accepted by the lookups, and a reply the lookups
   * accept is refused by creation exactly when its gateway state is missing
   * or not "Completed"/"Pending".
   */
  lemma CreationRefinesStatus(x: Exchange)
    ensures CreatePayout(x).Ok? ==> CheckPayoutStatus(x) == CreatePayout(x)
    ensures CheckPayoutStatus(x).Ok? && CreatePayout(x).Err? ==>
      !x.body.gateway.GatewayObject? || !AcceptedGatewayStatus(x.body.gateway.gatewayStatus)
    ensures CheckPayoutStatus(x).Err? ==> CreatePayout(x) == CheckPayoutStatus(x)
  {
  }

  /** The gateway state is compared exactly: a lower-case "completed" is refused. */
  lemma GatewayStatusIsCaseSensitive(message: Value, rest: seq<(string, string)>)
    ensures CreatePayout(Reply(200, Object(true, GatewayObject(Str("completed")), message, rest))) == Err(GatewayFailed)
    ensures CreatePayout(Reply(200, Object(true, GatewayObject(Str("Completed")), message, rest))).Ok?
  {
  }
}
