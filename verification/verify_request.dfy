/** The verification-request handler: validate the client's form, build the
    compact verification record (truncated name, place and questions,
    defaults for language, gender and questions, a timestamp), tag it with a
    16-hex-digit HMAC prefix, and answer with the admin approval URL that
    carries the record and the tag. The configured admin secret, the HMAC and the clock
    are parameters. */
module VerifyRequest {
  import opened Common
  import opened Web
  import opened Records
  import Signature
  import Base64

  datatype Request = Request(httpMethod: Method, host: Option<string>, body: Option<UserData>)

  datatype Reply =
    | NoContent
    | MethodNotAllowed
    | MissingFields
    | Failed
    | Created(approvalUrl: string)

  function Status(r: Reply): (code: int) {
    match r
    case NoContent => OK
    case MethodNotAllowed => METHOD_NOT_ALLOWED
    case MissingFields => BAD_REQUEST
    case Failed => SERVER_ERROR
    case Created(_) => OK
  }

  /** Name, birth date, birth time and birth place are all present and non-empty. */
  predicate HasRequired(u: UserData) {
    Truthy(u.name) && Truthy(u.birthDate) && Truthy(u.birthTime) && Truthy(u.birthPlace)
  }

  function Min(a: nat, b: nat): nat {
    if a <= b then a else b
  }

  const NameLimit: nat := 50
  const PlaceLimit: nat := 100
  const QuestionsLimit: nat := 300
  const DefaultLanguage := "english"
  const DefaultGender := "other"
  const DefaultQuestions := "Complete life reading"

  /** `verificationData`. */
  function BuildRecord(u: UserData, now: nat): (v: VerificationData)
    requires HasRequired(u)
    ensures StartsWith(u.name.value, v.n) && |v.n| == Min(|u.name.value|, NameLimit)
    ensures v.bd == u.birthDate.value && v.bt == u.birthTime.value
    ensures StartsWith(u.birthPlace.value, v.bp) && |v.bp| == Min(|u.birthPlace.value|, PlaceLimit)
    ensures v.l == (if Truthy(u.language) then u.language.value else DefaultLanguage)
    ensures v.g == (if Truthy(u.gender) then u.gender.value else DefaultGender)
    ensures Truthy(u.questions) ==>
      StartsWith(u.questions.value, v.q) && |v.q| == Min(|u.questions.value|, QuestionsLimit)
    ensures !Truthy(u.questions) ==> v.q == DefaultQuestions
    ensures v.t == now
  {
    VerificationData(
      Take(u.name.value, NameLimit), u.birthDate.value, u.birthTime.value,
      Take(u.birthPlace.value, PlaceLimit), OrElse(u.language, DefaultLanguage),
      OrElse(u.gender, DefaultGender), Take(OrElse(u.questions, DefaultQuestions), QuestionsLimit), now)
  }

  /** `signData`: the first 16 hex digits of the HMAC of the record's JSON. */
  function SignData(mac: Signature.Mac, secret: string, codec: Codec<VerificationData>, v: VerificationData)
    : (sig: string)
    ensures |sig| == 16
    ensures forall i | 0 <= i < |sig| :: Signature.IsLowerHex(sig[i])
  {
    Signature.Tag(mac(secret, codec.stringify(v)))
  }

  /** `${protocol}://${host}/api/approve?d=${encodedData}&sig=${signature}`. */
  function ApprovalUrl(host: string, encoded: string, sig: string): string {
    WithQuery(Origin(host) + "/api/approve", [Param("d", encoded), Param("sig", sig)])
  }

  /** The handler; `configured` is `ADMIN_SECRET` and `now` is `Date.now()`. */
  function Handle(configured: Option<string>, req: Request, mac: Signature.Mac, codec: Codec<VerificationData>, now: nat)
    : (r: Reply)
    ensures r == NoContent <==> req.httpMethod == Options
    ensures r == MethodNotAllowed <==> req.httpMethod != Options && req.httpMethod != Post
    ensures r == MissingFields <==> req.httpMethod == Post && req.body.Some? && !HasRequired(req.body.value)
    ensures r.Created? <==> req.httpMethod == Post && req.body.Some? && HasRequired(req.body.value) && req.host.Some?
  {
    if req.httpMethod == Options then NoContent
    else if req.httpMethod != Post then MethodNotAllowed
    else
      match req.body
      case None => Failed
      case Some(u) =>
        if !HasRequired(u) then MissingFields
        else
          var v := BuildRecord(u, now);
          var sig := SignData(mac, AdminSecret(configured), codec, v);
          var encoded := EncodePayload(codec, v);
          match req.host
          case None => Failed
          case Some(host) => Created(ApprovalUrl(host, encoded, sig))
  }

  // ---- properties -----------------------------------------------------

  /** A created approval URL has exactly two query parameters, `d` carrying
      the encoded record and `sig` carrying the tag, and `d` decodes back to
      the record. The secret appears only through the tag. */
  lemma ApprovalUrlCarriesRecord(configured: Option<string>, req: Request, mac: Signature.Mac,
                                 codec: Codec<VerificationData>, now: nat)
    requires Faithful(codec)
    requires Handle(configured, req, mac, codec, now).Created?
    ensures var v := BuildRecord(req.body.value, now);
      var d := EncodePayload(codec, v);
      var sig := SignData(mac, AdminSecret(configured), codec, v);
      Handle(configured, req, mac, codec, now).approvalUrl ==
        Origin(req.host.value) + "/api/approve?" + "d=" + d + "&sig=" + sig &&
      ParseQuery("d=" + d + "&sig=" + sig) == [Param("d", d), Param("sig", sig)] &&
      DecodePayload(codec, d) == Some(v)
  {
    var v := BuildRecord(req.body.value, now);
    var d := EncodePayload(codec, v);
    var sig := SignData(mac, AdminSecret(configured), codec, v);
    CreatedUrl(configured, req, mac, codec, now);
    PayloadRoundTrip(codec, v);
    PlainTokens(d, sig);
    ApprovalQuery(d, sig);
    ApprovalUrlText(req.host.value, d, sig);
  }

  lemma CreatedUrl(configured: Option<string>, req: Request, mac: Signature.Mac, codec: Codec<VerificationData>, now: nat)
    requires Handle(configured, req, mac, codec, now).Created?
    ensures var v := BuildRecord(req.body.value, now);
      Handle(configured, req, mac, codec, now).approvalUrl ==
        ApprovalUrl(req.host.value, EncodePayload(codec, v), SignData(mac, AdminSecret(configured), codec, v))
  {
  }

  lemma ApprovalUrlText(host: string, d: string, sig: string)
    requires QueryString([Param("d", d), Param("sig", sig)]) == "d=" + d + "&sig=" + sig
    ensures ApprovalUrl(host, d, sig) == Origin(host) + "/api/approve?" + "d=" + d + "&sig=" + sig
  {
  }

  /** The encoded record and the tag hold no query syntax. */
  lemma PlainTokens(d: string, sig: string)
    requires forall i | 0 <= i < |d| :: Base64.IsUrlChar(d[i])
    requires forall i | 0 <= i < |sig| :: Signature.IsLowerHex(sig[i])
    ensures Plain(d) && Plain(sig)
  {
  }

  lemma ApprovalQuery(d: string, sig: string)
    requires Plain(d) && Plain(sig)
    ensures QueryString([Param("d", d), Param("sig", sig)]) == "d=" + d + "&sig=" + sig
    ensures ParseQuery("d=" + d + "&sig=" + sig) == [Param("d", d), Param("sig", sig)]
  {
    var ps := [Param("d", d), Param("sig", sig)];
    assert ps[1..] == [Param("sig", sig)];
    QueryRoundTrip(ps);
  }

  /** Two admin secrets give approval URLs that differ at most in the tag:
      both are created, they agree on everything up to and including
      `&sig=`, and the two tags that follow have the same length. */
  lemma SecretOnlyInTag(s1: Option<string>, s2: Option<string>, req: Request, mac: Signature.Mac,
                        codec: Codec<VerificationData>, now: nat)
    requires Handle(s1, req, mac, codec, now).Created?
    ensures Handle(s2, req, mac, codec, now).Created?
    ensures var v := BuildRecord(req.body.value, now);
      var prefix := Origin(req.host.value) + "/api/approve?d=" + EncodePayload(codec, v) + "&sig=";
      var u1 := Handle(s1, req, mac, codec, now).approvalUrl;
      var u2 := Handle(s2, req, mac, codec, now).approvalUrl;
      |u1| == |u2| == |prefix| + 16 && u1[..|prefix|] == u2[..|prefix|] == prefix
  {
    var v := BuildRecord(req.body.value, now);
    var d := EncodePayload(codec, v);
    var prefix := Origin(req.host.value) + "/api/approve?d=" + d + "&sig=";
    TagAfterPrefix(s1, req, mac, codec, now, prefix);
    TagAfterPrefix(s2, req, mac, codec, now, prefix);
  }

  lemma TagAfterPrefix(configured: Option<string>, req: Request, mac: Signature.Mac,
                       codec: Codec<VerificationData>, now: nat, prefix: string)
    requires Handle(configured, req, mac, codec, now).Created?
    requires var v := BuildRecord(req.body.value, now);
      prefix == Origin(req.host.value) + "/api/approve?d=" + EncodePayload(codec, v) + "&sig="
    ensures var v := BuildRecord(req.body.value, now);
      var u := Handle(configured, req, mac, codec, now).approvalUrl;
      |u| == |prefix| + 16 && u[..|prefix|] == prefix
  {
    var v := BuildRecord(req.body.value, now);
    var d := EncodePayload(codec, v);
    var sig := SignData(mac, AdminSecret(configured), codec, v);
    CreatedUrl(configured, req, mac, codec, now);
    UrlIsPrefixAndTag(req.host.value, d, sig, prefix);
  }

  /** The approval URL is everything up to `&sig=` followed by the tag. */
  lemma UrlIsPrefixAndTag(host: string, d: string, sig: string, prefix: string)
    requires forall i | 0 <= i < |d| :: Base64.IsUrlChar(d[i])
    requires |sig| == 16 && forall i | 0 <= i < |sig| :: Signature.IsLowerHex(sig[i])
    requires prefix == Origin(host) + "/api/approve?d=" + d + "&sig="
    ensures |ApprovalUrl(host, d, sig)| == |prefix| + 16
    ensures ApprovalUrl(host, d, sig)[..|prefix|] == prefix
  {
    PlainTokens(d, sig);
    ApprovalQuery(d, sig);
    ApprovalUrlText(host, d, sig);
    assert ApprovalUrl(host, d, sig) == prefix + sig;
    assert (prefix + sig)[..|prefix|] == prefix;
  }
}
