/** The UPI payment handler of `api/payment.js`: check the configured UPI
    id, build one query (payee address, sanitised payee name, amount,
    currency, note) and hand the same query to every payment app's URL
    scheme, with a base-36 transaction reference. The formatted amount and
    the clock are parameters. */
module UpiPayment {
  import opened Common
  import opened Web

  datatype Request = Request(httpMethod: Method)

  /** `UPI_ID`, `UPI_NAME`, and `PAYMENT_AMOUNT` already formatted by
      `parseFloat(...).toFixed(2)`. */
  datatype Env = Env(upiId: Option<string>, upiName: Option<string>, amount: string)

  datatype AppUrls = AppUrls(upi: string, gpay: string, phonepe: string, paytm: string, bhim: string)

  datatype Reply =
    | NoContent
    | MethodNotAllowed
    | NotConfigured
    | PaymentLinks(amount: string, upiId: string, upiName: string, txnRef: string, urls: AppUrls, rawParams: string)

  function Status(r: Reply): (code: int) {
    match r
    case NoContent => OK
    case MethodNotAllowed => METHOD_NOT_ALLOWED
    case NotConfigured => SERVER_ERROR
    case PaymentLinks(_, _, _, _, _, _) => OK
  }

  /** The characters `[a-zA-Z0-9 ]` keeps. */
  predicate IsNameChar(c: char) {
    ('a' <= c <= 'z') || ('A' <= c <= 'Z') || ('0' <= c <= '9') || c == ' '
  }

  /** `name.replace(/[^a-zA-Z0-9 ]/g, '')`. */
  function Sanitize(s: string): (r: string)
    ensures |r| <= |s|
    decreases |s|
  {
    if |s| == 0 then ""
    else if IsNameChar(s[0]) then [s[0]] + Sanitize(s[1..])
    else Sanitize(s[1..])
  }

  /** `'CO' + Date.now().toString(36).toUpperCase()`. */
  function TxnRef(now: nat): (t: string)
    ensures |t| >= 3 && t[..2] == "CO"
  {
    "CO" + ToUpper(ToRadix(now, 36))
  }

  /** The query, parameters in the order the handler appends them. */
  function UpiParams(upiId: string, upiName: string, amount: string): (ps: seq<Param>)
    ensures |ps| == 5
  {
    [Param("pa", upiId), Param("pn", Sanitize(upiName)), Param("am", amount),
     Param("cu", "INR"), Param("tn", Purpose)]
  }

  function Urls(query: string): AppUrls {
    AppUrls("upi://pay?" + query, "tez://upi/pay?" + query, "phonepe://pay?" + query,
            "paytmmp://pay?" + query, "upi://pay?" + query)
  }

  /** The handler; `now` is `Date.now()`. */
  function Handle(env: Env, req: Request, now: nat): (r: Reply)
    ensures r == NoContent <==> req.httpMethod == Options
    ensures r == MethodNotAllowed <==> req.httpMethod != Options && req.httpMethod != Get
    ensures r == NotConfigured <==>
      req.httpMethod == Get && (!Truthy(env.upiId) || !Contains(env.upiId.value, "@"))
    ensures r.PaymentLinks? ==>
      r.upiId == env.upiId.value && r.amount == env.amount && r.txnRef == TxnRef(now) &&
      r.upiName == OrElse(env.upiName, Brand)
  {
    if req.httpMethod == Options then NoContent
    else if req.httpMethod != Get then MethodNotAllowed
    else
      var upiName := OrElse(env.upiName, Brand);
      if !Truthy(env.upiId) || !Contains(env.upiId.value, "@") then NotConfigured
      else
        var upiId := env.upiId.value;
        var query := QueryString(UpiParams(upiId, upiName, env.amount));
        PaymentLinks(env.amount, upiId, upiName, TxnRef(now), Urls(query), query)
  }

  // ---- the payee-name sanitiser ----------------------------------------

  /** The sanitised name is exactly the allowed characters of the name, in
      order: none of them is dropped and nothing else is kept. A name with
      a disallowed character comes out strictly shorter, so such a
      character is deleted rather than replaced. */
  lemma {:induction false} SanitizeKeepsExactlyAllowed(s: string)
    ensures forall i | 0 <= i < |Sanitize(s)| :: IsNameChar(Sanitize(s)[i])
    ensures (forall i | 0 <= i < |s| :: IsNameChar(s[i])) ==> Sanitize(s) == s
    ensures (exists i | 0 <= i < |s| :: !IsNameChar(s[i])) ==> |Sanitize(s)| < |s|
    decreases |s|
  {
    if |s| > 0 {
      SanitizeKeepsExactlyAllowed(s[1..]);
      if IsNameChar(s[0]) && exists i | 0 <= i < |s| :: !IsNameChar(s[i]) {
        var i :| 0 <= i < |s| && !IsNameChar(s[i]);
        assert s[1..][i - 1] == s[i];
      }
      if forall i | 0 <= i < |s| :: IsNameChar(s[i]) {
        assert forall i | 0 <= i < |s[1..]| :: IsNameChar(s[1..][i]) by {
          assert forall i | 0 <= i < |s[1..]| :: s[1..][i] == s[i + 1];
        }
        assert s == [s[0]] + s[1..];
      }
    }
  }

  /** One character: an allowed one is kept as it is, any other is
      deleted. With SanitizeConcat this fixes the sanitiser on every
      string. */
  lemma SanitizeOne(c: char)
    ensures IsNameChar(c) ==> Sanitize([c]) == [c]
    ensures !IsNameChar(c) ==> Sanitize([c]) == ""
  {
    assert [c][1..] == "";
  }

  /** Sanitising works piecewise. */
  lemma {:induction false} SanitizeConcat(a: string, b: string)
    ensures Sanitize(a + b) == Sanitize(a) + Sanitize(b)
    decreases |a|
  {
    if |a| == 0 {
      assert a + b == b;
    } else {
      assert (a + b)[0] == a[0];
      assert (a + b)[1..] == a[1..] + b;
      SanitizeConcat(a[1..], b);
    }
  }

  /** Sanitising twice is sanitising once. */
  lemma SanitizeIdempotent(s: string)
    ensures Sanitize(Sanitize(s)) == Sanitize(s)
  {
    SanitizeKeepsExactlyAllowed(s);
    SanitizeKeepsExactlyAllowed(Sanitize(s));
  }

  /** A character outside the class never reaches the query. */
  lemma {:induction false} SanitizeDrops(s: string, c: char)
    requires !IsNameChar(c)
    ensures c !in Sanitize(s)
  {
    SanitizeKeepsExactlyAllowed(s);
  }

  // ---- the transaction reference --------------------------------------

  /** The reference reads back as the timestamp in base 36, whatever the
      letter case. */
  lemma TxnRefReadsBack(now: nat)
    ensures FromRadix(TxnRef(now)[2..], 36) == Some(now)
  {
    var digits := ToRadix(now, 36);
    assert TxnRef(now)[2..] == ToUpper(digits);
    FromRadixUpper(digits, 36);
    FromRadixToRadix(now, 36);
  }

  // ---- the URL table --------------------------------------------------

  /** Every app URL is its scheme followed by the one query string, `upi`
      and `bhim` are the same URL, and the page shows the unsanitised
      configured name. */
  lemma SharedQuery(env: Env, req: Request, now: nat)
    requires Handle(env, req, now).PaymentLinks?
    ensures var r := Handle(env, req, now);
      var q := r.rawParams;
      r.urls.upi == "upi://pay?" + q && r.urls.gpay == "tez://upi/pay?" + q &&
      r.urls.phonepe == "phonepe://pay?" + q && r.urls.paytm == "paytmmp://pay?" + q &&
      r.urls.bhim == r.urls.upi &&
      q == QueryString(UpiParams(env.upiId.value, OrElse(env.upiName, Brand), env.amount))
    ensures Handle(env, req, now).upiId == env.upiId.value
    ensures Handle(env, req, now).amount == env.amount
    ensures Handle(env, req, now).txnRef == TxnRef(now)
    ensures Handle(env, req, now).upiName == OrElse(env.upiName, Brand)
  {
  }

  /** The query reads back as pa, pn, am, cu, tn in that order, with the
      sanitised name, currency INR and the fixed note, provided the id and
      the amount hold no query syntax (the sanitised name never does). */
  lemma UpiQueryReadsBack(upiId: string, upiName: string, amount: string)
    requires Plain(upiId) && Plain(amount)
    ensures ParseQuery(QueryString(UpiParams(upiId, upiName, amount))) ==
      [Param("pa", upiId), Param("pn", Sanitize(upiName)), Param("am", amount),
       Param("cu", "INR"), Param("tn", Purpose)]
  {
    UpiParamsPlain(upiId, upiName, amount);
    QueryRoundTrip(UpiParams(upiId, upiName, amount));
  }

  lemma UpiParamsPlain(upiId: string, upiName: string, amount: string)
    requires Plain(upiId) && Plain(amount)
    ensures var ps := UpiParams(upiId, upiName, amount);
      forall i | 0 <= i < |ps| :: Plain(ps[i].key) && Plain(ps[i].value)
  {
    SanitizeKeepsExactlyAllowed(upiName);
    assert Plain(Sanitize(upiName));
    FixedValuesPlain();
  }
}
