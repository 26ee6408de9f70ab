/** The payment-verification handler: check the gateway's HMAC signature
    over `order_id|payment_id`, have the reading generated, pack the reading
    record into a URL-safe payload and answer with the reading URL. The
    HMAC, the text generator and the calendar are parameters. */
module VerifyPayment {
  import opened Common
  import opened Web
  import opened Records
  import Zodiac
  import Numerology
  import Signature

  /** The JSON body; any field may be missing. */
  datatype PaymentBody = PaymentBody(
    orderId: Option<string>, paymentId: Option<string>, signature: Option<string>,
    userData: Option<UserData>)

  datatype Request = Request(httpMethod: Method, host: Option<string>, body: Option<PaymentBody>)

  /** `RAZORPAY_KEY_SECRET` and `OPENAI_API_KEY`. */
  datatype Env = Env(keySecret: Option<string>, openAiKey: Option<string>)

  /** The chat-completion call for a client with the given sign and life-path
      number: the reading text, or None when the call fails, answers with a
      non-OK status or carries no content. */
  type Generator = (UserData, Zodiac.Sign, Option<nat>) -> Option<string>

  /** `new Date(s)` read as local (month 1..12, day of month); None for an
      invalid date. */
  type Calendar = string -> Option<(int, int)>

  datatype ReadingResult = ReadingResult(reading: string, zodiac: Zodiac.Sign, lifePath: Option<nat>)

  datatype Reply =
    | NoContent
    | MethodNotAllowed
    | NotConfigured
    | InvalidSignature
    | Failed
    | Verified(paymentId: Option<string>, readingUrl: string, name: Option<string>)

  function Status(r: Reply): (code: int) {
    match r
    case NoContent => OK
    case MethodNotAllowed => METHOD_NOT_ALLOWED
    case NotConfigured => SERVER_ERROR
    case InvalidSignature => BAD_REQUEST
    case Failed => SERVER_ERROR
    case Verified(_, _, _) => OK
  }

  /** A value as string concatenation renders it. */
  function Str(v: Option<string>): string {
    match v
    case Some(s) => s
    case None => "undefined"
  }

  /** The signed message `order_id + "|" + payment_id`. */
  function SignedText(b: PaymentBody): string {
    Str(b.orderId) + "|" + Str(b.paymentId)
  }

  /** The hex HMAC the gateway's signature must equal. */
  function ExpectedSignature(mac: Signature.Mac, keySecret: string, b: PaymentBody): (s: string)
    ensures |s| == 64
    ensures forall i | 0 <= i < |s| :: Signature.IsLowerHex(s[i])
  {
    Signature.Hex(mac(keySecret, SignedText(b)))
  }

  /** `getZodiac(birthDate)`: an invalid date compares false everywhere and
      falls through to Capricorn. */
  function ZodiacOf(date: Option<(int, int)>): (s: Zodiac.Sign)
    ensures date.None? ==> s == Zodiac.Capricorn
    ensures date.Some? ==> s == Zodiac.GetZodiac(date.value.0, date.value.1)
  {
    match date
    case None => Zodiac.Capricorn
    case Some((month, day)) => Zodiac.GetZodiac(month, day)
  }

  /** `generateReading`: None when the API key is missing, when the birth
      date is absent (`getLifePath` throws on it) or when the generator
      yields nothing. */
  function GenerateReading(apiKey: Option<string>, u: UserData, calendar: Calendar, generate: Generator)
    : (r: Option<ReadingResult>)
    ensures !Truthy(apiKey) || u.birthDate.None? ==> r.None?
    ensures r.Some? ==> r.value.reading != ""
    ensures r.Some? ==> r.value.zodiac in Zodiac.Signs
    ensures r.Some? ==> var lp := r.value.lifePath; lp.Some? ==> lp.value <= 9 || Numerology.IsMaster(lp.value)
    ensures r.Some? ==>
      r.value.zodiac == ZodiacOf(calendar(u.birthDate.value)) &&
      r.value.lifePath == Numerology.LifePath(u.birthDate.value) &&
      generate(u, r.value.zodiac, r.value.lifePath) == Some(r.value.reading)
    ensures Truthy(apiKey) && u.birthDate.Some? ==>
      var bd := u.birthDate.value;
      var text := generate(u, ZodiacOf(calendar(bd)), Numerology.LifePath(bd));
      (r.Some? <==> Truthy(text))
  {
    if !Truthy(apiKey) then None
    else
      match u.birthDate
      case None => None
      case Some(bd) =>
        var zodiac := ZodiacOf(calendar(bd));
        var lifePath := Numerology.LifePath(bd);
        match generate(u, zodiac, lifePath)
        case Some(text) => if text == "" then None else Some(ReadingResult(text, zodiac, lifePath))
        case None => None
  }

  /** `readingData`. */
  function MakeReadingData(u: UserData, res: ReadingResult, paymentId: Option<string>, now: string): ReadingData {
    ReadingData(u.name, u.birthDate, u.birthTime, u.birthPlace, u.language, u.gender, u.questions,
                Some(res.zodiac), res.lifePath, Some(res.reading), paymentId, Some(now))
  }

  /** `${protocol}://${host}/api/reading?r=${encodedReading}`. */
  function ReadingUrl(host: string, encoded: string): string {
    WithQuery(Origin(host) + "/api/reading", [Param("r", encoded)])
  }

  /** The handler; `now` is `new Date().toISOString()`. */
  function Handle(env: Env, req: Request, mac: Signature.Mac, calendar: Calendar, generate: Generator,
                  codec: Codec<ReadingData>, now: string): (r: Reply)
    ensures r == NoContent <==> req.httpMethod == Options
    ensures r == MethodNotAllowed <==> req.httpMethod != Options && req.httpMethod != Post
    ensures r == NotConfigured <==> req.httpMethod == Post && !Truthy(env.keySecret)
    ensures r == InvalidSignature <==>
      req.httpMethod == Post && Truthy(env.keySecret) && req.body.Some? &&
      req.body.value.signature != Some(ExpectedSignature(mac, env.keySecret.value, req.body.value))
    ensures r.Verified? <==>
      req.httpMethod == Post && Truthy(env.keySecret) && req.body.Some? &&
      req.body.value.signature == Some(ExpectedSignature(mac, env.keySecret.value, req.body.value)) &&
      req.body.value.userData.Some? &&
      GenerateReading(env.openAiKey, req.body.value.userData.value, calendar, generate).Some? &&
      req.host.Some?
    ensures r.Verified? ==>
      r.paymentId == req.body.value.paymentId && r.name == req.body.value.userData.value.name
  {
    if req.httpMethod == Options then NoContent
    else if req.httpMethod != Post then MethodNotAllowed
    else if !Truthy(env.keySecret) then NotConfigured
    else
      match req.body
      case None => Failed
      case Some(b) =>
        if b.signature != Some(ExpectedSignature(mac, env.keySecret.value, b)) then InvalidSignature
        else
          match b.userData
          case None => Failed
          case Some(u) =>
            match GenerateReading(env.openAiKey, u, calendar, generate)
            case None => Failed
            case Some(res) =>
              var encoded := EncodePayload(codec, MakeReadingData(u, res, b.paymentId, now));
              match req.host
              case None => Failed
              case Some(host) => Verified(b.paymentId, ReadingUrl(host, encoded), u.name)
  }

  // ---- properties -----------------------------------------------------

  /** A bad signature is answered with 400 before any reading is generated:
      the reply does not depend on the generator at all. */
  lemma RejectedBeforeGeneration(env: Env, req: Request, mac: Signature.Mac, calendar: Calendar,
                                 g1: Generator, g2: Generator, codec: Codec<ReadingData>, now: string)
    requires req.httpMethod == Post && Truthy(env.keySecret) && req.body.Some?
    requires req.body.value.signature != Some(ExpectedSignature(mac, env.keySecret.value, req.body.value))
    ensures Handle(env, req, mac, calendar, g1, codec, now) == InvalidSignature
    ensures Handle(env, req, mac, calendar, g1, codec, now) == Handle(env, req, mac, calendar, g2, codec, now)
  {
  }

  /** A verified payment answers 200 with a reading URL whose `r` parameter
      decodes to a record that copies the client's fields unchanged and the
      sign, life-path number and text from the generator. */
  lemma VerifiedUrlCarriesReading(env: Env, req: Request, mac: Signature.Mac, calendar: Calendar,
                                  generate: Generator, codec: Codec<ReadingData>, now: string)
    requires Faithful(codec)
    requires Handle(env, req, mac, calendar, generate, codec, now).Verified?
    ensures var b := req.body.value; var u := b.userData.value;
      var res := GenerateReading(env.openAiKey, u, calendar, generate);
      res.Some? &&
      exists encoded: string ::
        Handle(env, req, mac, calendar, generate, codec, now).readingUrl == ReadingUrl(req.host.value, encoded) &&
        DecodePayload(codec, encoded) == Some(MakeReadingData(u, res.value, b.paymentId, now))
  {
    var b := req.body.value;
    var u := b.userData.value;
    var res := GenerateReading(env.openAiKey, u, calendar, generate).value;
    var d := MakeReadingData(u, res, b.paymentId, now);
    PayloadRoundTrip(codec, d);
    var encoded := EncodePayload(codec, d);
    assert Handle(env, req, mac, calendar, generate, codec, now).readingUrl == ReadingUrl(req.host.value, encoded);
  }

  /** The record copies the seven client fields verbatim and takes sign,
      life-path number and text from the generation result. */
  lemma ReadingDataCopies(u: UserData, res: ReadingResult, paymentId: Option<string>, now: string)
    ensures var d := MakeReadingData(u, res, paymentId, now);
      d.name == u.name && d.birthDate == u.birthDate && d.birthTime == u.birthTime &&
      d.birthPlace == u.birthPlace && d.language == u.language && d.gender == u.gender &&
      d.questions == u.questions && d.zodiac == Some(res.zodiac) &&
      d.lifePathNumber == res.lifePath && d.reading == Some(res.reading) && d.paymentId == paymentId
  {
  }

  /** The reading URL holds exactly one query parameter, `r`, and its value
      is in the URL-safe alphabet. */
  lemma ReadingUrlShape(host: string, codec: Codec<ReadingData>, d: ReadingData)
    ensures var e := EncodePayload(codec, d);
      ReadingUrl(host, e) == Origin(host) + "/api/reading?r=" + e &&
      ParseQuery("r=" + e) == [Param("r", e)]
  {
    var e := EncodePayload(codec, d);
    UrlSafeIsPlain(e);
    ReadingQuery(e);
    ReadingUrlText(host, e);
  }

  lemma UrlSafeIsPlain(e: string)
    requires forall i | 0 <= i < |e| :: Base64.IsUrlChar(e[i])
    ensures Plain(e)
  {
  }

  lemma ReadingQuery(e: string)
    requires Plain(e)
    ensures QueryString([Param("r", e)]) == "r=" + e
    ensures ParseQuery("r=" + e) == [Param("r", e)]
  {
    QueryRoundTrip([Param("r", e)]);
  }

  lemma ReadingUrlText(host: string, e: string)
    requires QueryString([Param("r", e)]) == "r=" + e
    ensures ReadingUrl(host, e) == Origin(host) + "/api/reading?r=" + e
  {
  }

  /** The success path needs every step: a generator that yields nothing
      turns a correctly signed request into a 500. */
  lemma NoReadingIsServerError(env: Env, req: Request, mac: Signature.Mac, calendar: Calendar,
                               codec: Codec<ReadingData>, now: string)
    requires req.httpMethod == Post && Truthy(env.keySecret) && req.body.Some?
    requires req.body.value.signature == Some(ExpectedSignature(mac, env.keySecret.value, req.body.value))
    ensures Status(Handle(env, req, mac, calendar, (u, z, lp) => None, codec, now)) == SERVER_ERROR
  {
  }
}
