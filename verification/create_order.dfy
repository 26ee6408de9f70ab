/** The order handler of `api/create-order.js`: check the method and the
    payment-gateway keys, build the order record (amount in paise, INR, a
    timestamped receipt, notes), send it with a Basic credential, and
    report the order to the client with the amount in rupees. The gateway
    call and the clock are parameters; the handler returns the reply
    together with the outbound request it made, if any. */
module CreateOrder {
  import opened Common
  import opened Web
  import opened Records
  import Base64
  import Utf8
  import Text

  /** `RAZORPAY_KEY_ID`, `RAZORPAY_KEY_SECRET`, and the rupee amount
      `parseInt(PAYMENT_AMOUNT || '100')`. */
  datatype Env = Env(keyId: Option<string>, keySecret: Option<string>, amount: int)

  datatype Request = Request(httpMethod: Method, body: Option<UserData>)

  datatype Notes = Notes(name: Option<string>, birthDate: Option<string>, purpose: string)

  /** `orderData`; `amount` is in paise. */
  datatype OrderData = OrderData(amount: int, currency: string, receipt: string, notes: Notes)

  /** The `POST` to the orders endpoint. */
  datatype Outbound = Outbound(url: string, authorization: string, order: OrderData)

  /** `response.ok` and the order id of the parsed reply. */
  datatype GatewayReply = GatewayReply(ok: bool, id: Option<string>)

  /** The gateway round trip: `None` when the request or the JSON body fails. */
  type Gateway = Outbound -> Option<GatewayReply>

  datatype Reply =
    | NoContent
    | MethodNotAllowed
    | NotConfigured
    | Failed
    | Created(orderId: Option<string>, amount: int, currency: string, keyId: string,
              name: Option<string>, description: string)

  function Status(r: Reply): (code: int) {
    match r
    case NoContent => OK
    case MethodNotAllowed => METHOD_NOT_ALLOWED
    case NotConfigured => SERVER_ERROR
    case Failed => SERVER_ERROR
    case Created(_, _, _, _, _, _) => OK
  }

  const OrdersUrl := "https://api.razorpay.com/v1/orders"
  const Currency := "INR"
  const Description := "Celestial Oracle - Astrology Reading"

  /** `orderData` for the configured rupee amount, the client's form and
      the timestamp. */
  function Order(rupees: int, u: UserData, now: nat): (o: OrderData) {
    OrderData(rupees * 100, Currency, "order_" + Decimal(now), Notes(u.name, u.birthDate, Purpose))
  }

  /** The Basic credential: base64 of the UTF-8 bytes of `keyId:keySecret`. */
  function Credential(keyId: string, keySecret: string): (c: string)
    ensures |c| % 4 == 0
    ensures forall i | 0 <= i < |c| :: Base64.IsStdChar(c[i]) || c[i] == '='
  {
    var c := Base64.StdEncode(Utf8.Encode(keyId + ":" + keySecret));
    assert Base64.PaddedShape(c, Base64.UnpaddedLength(|Utf8.Encode(keyId + ":" + keySecret)|));
    c
  }

  function OrderRequest(keyId: string, keySecret: string, order: OrderData): Outbound {
    Outbound(OrdersUrl, "Basic " + Credential(keyId, keySecret), order)
  }

  /** The handler: the reply and the outbound request, if one was made. A
      missing body makes the destructuring throw inside the `try`. */
  function Handle(env: Env, req: Request, now: nat, gateway: Gateway): (out: (Reply, Option<Outbound>))
    ensures out.0 == NoContent <==> req.httpMethod == Options
    ensures out.0 == MethodNotAllowed <==> req.httpMethod != Options && req.httpMethod != Post
    ensures out.0 == NotConfigured <==>
      req.httpMethod == Post && (!Truthy(env.keyId) || !Truthy(env.keySecret))
    ensures out.1.Some? <==>
      req.httpMethod == Post && Truthy(env.keyId) && Truthy(env.keySecret) && req.body.Some?
    ensures out.0.Created? <==>
      out.1.Some? && gateway(out.1.value).Some? && gateway(out.1.value).value.ok
  {
    if req.httpMethod == Options then (NoContent, None)
    else if req.httpMethod != Post then (MethodNotAllowed, None)
    else if !Truthy(env.keyId) || !Truthy(env.keySecret) then (NotConfigured, None)
    else
      match req.body
      case None => (Failed, None)
      case Some(u) =>
        var keyId := env.keyId.value;
        var outbound := OrderRequest(keyId, env.keySecret.value, Order(env.amount, u, now));
        match gateway(outbound)
        case None => (Failed, Some(outbound))
        case Some(reply) =>
          if !reply.ok then (Failed, Some(outbound))
          else (Created(reply.id, env.amount, Currency, keyId, u.name, Description), Some(outbound))
  }

  // ---- properties -----------------------------------------------------

  /** Without both keys the handler answers 500 and sends nothing, whatever
      the gateway would have said. */
  lemma UnconfiguredSendsNothing(env: Env, req: Request, now: nat, g1: Gateway, g2: Gateway)
    requires req.httpMethod == Post && (!Truthy(env.keyId) || !Truthy(env.keySecret))
    ensures Handle(env, req, now, g1) == Handle(env, req, now, g2) == (NotConfigured, None)
  {
  }

  /** The order goes to the orders endpoint with the Basic credential of
      the configured keys; it is the configured amount in paise, in INR, with an
      `order_` receipt that reads back as the timestamp and the client's
      name and birth date in the notes. */
  lemma OrderSent(env: Env, req: Request, now: nat, gateway: Gateway)
    requires Handle(env, req, now, gateway).1.Some?
    ensures var o := Handle(env, req, now, gateway).1.value;
      o.url == OrdersUrl &&
      o.authorization == "Basic " + Credential(env.keyId.value, env.keySecret.value) &&
      o.order.amount == 100 * env.amount && o.order.currency == "INR" &&
      StartsWith(o.order.receipt, "order_") &&
      FromRadix(o.order.receipt[6..], 10) == Some(now) &&
      o.order.notes == Notes(req.body.value.name, req.body.value.birthDate, "Astrology Reading")
  {
    FromRadixToRadix(now, 10);
    var o := Handle(env, req, now, gateway).1.value;
    assert o.order.receipt[..6] == "order_";
    assert o.order.receipt[6..] == Decimal(now);
  }

  /** The client is told the amount in rupees: the order carried a hundred
      times as much, and both name INR. */
  lemma RupeesToClientPaiseToGateway(env: Env, req: Request, now: nat, gateway: Gateway)
    requires Handle(env, req, now, gateway).0.Created?
    ensures var (reply, sent) := Handle(env, req, now, gateway);
      sent.value.order.amount == 100 * reply.amount &&
      reply.currency == sent.value.order.currency == "INR" &&
      reply.keyId == env.keyId.value && reply.orderId == gateway(sent.value).value.id &&
      reply.name == req.body.value.name
  {
  }

  /** The credential decodes back to `keyId:keySecret`. */
  lemma CredentialDecodes(keyId: string, keySecret: string)
    ensures var c := Credential(keyId, keySecret);
      match Base64.StdDecode(c)
      case None => false
      case Some(bytes) => Utf8.Decode(bytes) == Some(keyId + ":" + keySecret)
  {
    var text := keyId + ":" + keySecret;
    Base64.StdRoundTrip(Utf8.Encode(text));
    Utf8.RoundTrip(text);
  }

  /** When the key id has no colon, the decoded text before its first
      colon is the key id. */
  lemma KeyIdBeforeColon(keyId: string, keySecret: string)
    requires ':' !in keyId
    ensures Text.Split(keyId + ":" + keySecret, ":")[0] == keyId
  {
    var rest := ":" + keySecret;
    Text.SplitFreePrefix(keyId, rest, ":");
    assert StartsWith(rest, ":");
    assert rest[1..] == keySecret;
    assert Text.Split(rest, ":")[0] == "";
    assert keyId + ":" + keySecret == keyId + rest;
    assert keyId + "" == keyId;
  }
}
