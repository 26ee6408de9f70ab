/** The simpler UPI handler of `api/Payment.js`: with a UPI id configured,
    one query (payee address, payee name, amount, currency, note and a
    transaction id) is shared by the app URLs, and the id is shown masked
    by the regular expression `/(.{3}).*(@.*)/`. The clock and the random
    suffix of the transaction id are parameters. */
module UpiLinks {
  import opened Common
  import opened Web

  datatype Request = Request(httpMethod: Method)

  /** `UPI_ID`, `UPI_NAME` and `PAYMENT_AMOUNT`. */
  datatype Env = Env(upiId: Option<string>, upiName: Option<string>, amount: Option<string>)

  datatype AppUrls = AppUrls(gpay: string, phonepe: string, paytm: string, upi: string)

  datatype Reply =
    | NoContent
    | NotConfigured
    | PaymentLinks(amount: string, txnId: string, urls: AppUrls, displayUpiId: string, query: string)

  function Status(r: Reply): (code: int) {
    match r
    case NoContent => OK
    case NotConfigured => SERVER_ERROR
    case PaymentLinks(_, _, _, _, _) => OK
  }

  const DefaultAmount := "100"

  /** `'TXN' + Date.now() + suffix`, where `suffix` stands for the random
      base-36 digits. */
  function TxnId(now: nat, suffix: string): (t: string) {
    "TXN" + Decimal(now) + suffix
  }

  /** The `URLSearchParams` entries, in insertion order. */
  function LinkParams(upiId: string, upiName: string, amount: string, txnId: string): (ps: seq<Param>)
    ensures |ps| == 6
  {
    [Param("pa", upiId), Param("pn", upiName), Param("am", amount),
     Param("cu", "INR"), Param("tn", Purpose), Param("tr", txnId)]
  }

  function Urls(query: string): AppUrls {
    AppUrls("gpay://upi/pay?" + query, "phonepe://pay?" + query, "paytmmp://pay?" + query, "upi://pay?" + query)
  }

  /** The handler; there is no method check beyond `OPTIONS`. */
  function Handle(env: Env, req: Request, now: nat, suffix: string): (r: Reply)
    ensures r == NoContent <==> req.httpMethod == Options
    ensures r == NotConfigured <==> req.httpMethod != Options && !Truthy(env.upiId)
    ensures r.PaymentLinks? ==> r.displayUpiId == Mask(env.upiId.value)
  {
    if req.httpMethod == Options then NoContent
    else
      var upiName := OrElse(env.upiName, Brand);
      var amount := OrElse(env.amount, DefaultAmount);
      if !Truthy(env.upiId) then NotConfigured
      else
        var upiId := env.upiId.value;
        var txnId := TxnId(now, suffix);
        var query := QueryString(LinkParams(upiId, upiName, amount, txnId));
        PaymentLinks(amount, txnId, Urls(query), Mask(upiId), query)
  }

  // ---- the masking regular expression ---------------------------------

  /** The characters JavaScript's `.` does not match. */
  predicate IsLineTerminator(c: char) {
    c == '\n' || c == '\r' || c == '\U{2028}' || c == '\U{2029}'
  }

  /** The end of the line that starts at `p`: how far `.*` can reach. */
  function LineEnd(s: string, p: nat): (e: nat)
    requires p <= |s|
    ensures p <= e <= |s|
    ensures forall k | p <= k < e :: !IsLineTerminator(s[k])
    ensures e < |s| ==> IsLineTerminator(s[e])
    decreases |s| - p
  {
    if p == |s| || IsLineTerminator(s[p]) then p else LineEnd(s, p + 1)
  }

  /** The last `@` in `s[lo..hi]`: where the greedy `.*` gives back to. */
  function LastAt(s: string, lo: nat, hi: nat): (j: Option<nat>)
    requires lo <= hi <= |s|
    ensures j.Some? ==> lo <= j.value < hi && s[j.value] == '@'
    ensures j.Some? ==> forall k | j.value < k < hi :: s[k] != '@'
    ensures j.None? ==> forall k | lo <= k < hi :: s[k] != '@'
    decreases hi - lo
  {
    if lo == hi then None
    else if s[hi - 1] == '@' then Some(hi - 1)
    else LastAt(s, lo, hi - 1)
  }

  /** The leftmost match at or after `p`: its start and the position of
      the `@` that opens the second group. */
  function MatchFrom(s: string, p: nat): (m: Option<(nat, nat)>)
    requires p <= |s|
    ensures m.Some? ==> p <= m.value.0 && m.value.0 + 3 <= m.value.1 < |s| && s[m.value.1] == '@'
    decreases |s| - p
  {
    if |s| < p + 3 then None
    else
      var e := LineEnd(s, p);
      var at := if p + 3 <= e then LastAt(s, p + 3, e) else None;
      match at
      case Some(j) => Some((p, j))
      case None => MatchFrom(s, p + 1)
  }

  /** `upiId.replace(/(.{3}).*(@.*)/, '$1***$2')`: the first match keeps
      its three leading characters and its `@`-suffix, and what lies
      between becomes `***`; text around the match is kept. */
  function Mask(s: string): (r: string)
    ensures (forall k | 3 <= k < |s| :: s[k] != '@') ==> r == s
    ensures |r| <= |s| + 3
    ensures |s| >= 3 ==> |r| >= 3 && r[..3] == s[..3]
    ensures '@' in s ==> '@' in r
  {
    match MatchFrom(s, 0)
    case None => s
    case Some((p, j)) => s[..p + 3] + "***" + s[j..]
  }

  /** On a one-line id whose last `@` is at index 3 or later, the mask is
      the first three characters, `***`, and the suffix from that `@`. */
  lemma MaskOneLine(s: string, j: nat)
    requires forall k | 0 <= k < |s| :: !IsLineTerminator(s[k])
    requires 3 <= j < |s| && s[j] == '@'
    requires forall k | j < k < |s| :: s[k] != '@'
    ensures Mask(s) == s[..3] + "***" + s[j..]
  {
    assert LineEnd(s, 0) == |s|;
    var at := LastAt(s, 3, |s|);
    assert at == Some(j);
  }

  /** An id without an `@` at index 3 or later is shown unchanged, however
      many lines it has. */
  lemma MaskKeepsShortIds(s: string)
    requires forall k | 3 <= k < |s| :: s[k] != '@'
    ensures Mask(s) == s
  {
    NoMatchFrom(s, 0);
  }

  lemma {:induction false} NoMatchFrom(s: string, p: nat)
    requires p <= |s|
    requires forall k | 3 <= k < |s| :: s[k] != '@'
    ensures MatchFrom(s, p) == None
    decreases |s| - p
  {
    if |s| >= p + 3 {
      NoMatchFrom(s, p + 1);
    }
  }

  // ---- the handler ----------------------------------------------------

  /** The transaction id starts with `TXN` and the decimal timestamp. */
  lemma TxnIdStartsWithTime(now: nat, suffix: string)
    ensures StartsWith(TxnId(now, suffix), "TXN" + Decimal(now))
    ensures FromRadix(TxnId(now, suffix)[3..3 + |Decimal(now)|], 10) == Some(now)
  {
    var t := TxnId(now, suffix);
    assert t[..3 + |Decimal(now)|] == "TXN" + Decimal(now);
    assert t[3..3 + |Decimal(now)|] == Decimal(now);
    FromRadixToRadix(now, 10);
  }

  /** The four app URLs carry the one query string, whose parameters are
      the configured id, the name and amount (with their defaults), INR,
      the purpose and the transaction id. */
  lemma SharedQuery(env: Env, req: Request, now: nat, suffix: string)
    requires Handle(env, req, now, suffix).PaymentLinks?
    ensures var r := Handle(env, req, now, suffix);
      var q := r.query;
      r.urls.gpay == "gpay://upi/pay?" + q && r.urls.phonepe == "phonepe://pay?" + q &&
      r.urls.paytm == "paytmmp://pay?" + q && r.urls.upi == "upi://pay?" + q &&
      r.amount == OrElse(env.amount, DefaultAmount) && r.txnId == TxnId(now, suffix) &&
      q == QueryString(LinkParams(env.upiId.value, OrElse(env.upiName, Brand), r.amount, r.txnId))
  {
  }

  /** With no query syntax in the configured values or the random suffix,
      the query reads back as pa, pn, am, cu, tn, tr in that order. */
  lemma LinkQueryReadsBack(upiId: string, upiName: string, amount: string, now: nat, suffix: string)
    requires Plain(upiId) && Plain(upiName) && Plain(amount) && Plain(suffix)
    ensures ParseQuery(QueryString(LinkParams(upiId, upiName, amount, TxnId(now, suffix)))) ==
      [Param("pa", upiId), Param("pn", upiName), Param("am", amount),
       Param("cu", "INR"), Param("tn", Purpose), Param("tr", TxnId(now, suffix))]
  {
    var t := TxnId(now, suffix);
    var d := Decimal(now);
    assert Plain(d) by {
      forall i | 0 <= i < |d|
        ensures d[i] != '&' && d[i] != '='
      {
        assert DigitValue(d[i]).Some?;
      }
    }
    assert Plain(t) by {
      assert t == "TXN" + d + suffix;
      forall i | 0 <= i < |t|
        ensures t[i] != '&' && t[i] != '='
      {
        if i >= 3 + |d| {
          assert t[i] == suffix[i - 3 - |d|];
        } else if i >= 3 {
          assert t[i] == d[i - 3];
        }
      }
    }
    FixedValuesPlain();
    QueryRoundTrip(LinkParams(upiId, upiName, amount, t));
  }
}
