/** The request and URL vocabulary the handlers share: the HTTP method,
    the scheme chosen from the `Host` header, and query strings rendered as
    `key=value` pairs joined by `&` (template literals and
    `URLSearchParams.toString`, without percent-encoding). */
module Web {
  import opened Common
  import Text

  datatype Method = Options | Get | Post | OtherMethod(name: string)

  /** `host.includes('localhost') ? 'http' : 'https'`. */
  function Protocol(host: string): (p: string)
    ensures p == "http" <==> Contains(host, "localhost")
    ensures p == "http" || p == "https"
  {
    if Contains(host, "localhost") then "http" else "https"
  }

  /** `${protocol}://${host}`. */
  function Origin(host: string): string
  {
    Protocol(host) + "://" + host
  }

  datatype Param = Param(key: string, value: string)

  /** `k1=v1&k2=v2&...`, in list order. */
  function QueryString(ps: seq<Param>): (q: string)
    ensures |ps| == 0 ==> q == ""
    decreases |ps|
  {
    if |ps| == 0 then ""
    else if |ps| == 1 then ps[0].key + "=" + ps[0].value
    else ps[0].key + "=" + ps[0].value + "&" + QueryString(ps[1..])
  }

  lemma QueryCons(p: Param, rest: seq<Param>)
    requires |rest| >= 1
    ensures QueryString([p] + rest) == p.key + "=" + p.value + "&" + QueryString(rest)
  {
    assert ([p] + rest)[1..] == rest;
  }

  /** `base?query`. */
  function WithQuery(base: string, ps: seq<Param>): string
  {
    base + "?" + QueryString(ps)
  }

  // ---- reading a query back -------------------------------------------

  /** One `key=value` field: the key runs to the first `=`. */
  function ParseParam(field: string): (p: Param) {
    var kv := Text.Split(field, "=");
    Param(kv[0], if |kv| == 1 then "" else Text.Join(kv[1..], "="))
  }

  /** Splits a query at `&` and each field at its first `=`. */
  function ParseQuery(q: string): (ps: seq<Param>)
    ensures |ps| >= 1
  {
    var fields := Text.Split(q, "&");
    seq(|fields|, i requires 0 <= i < |fields| => ParseParam(fields[i]))
  }

  /** The value of the first parameter named `key`, as a handler reads
      `req.query[key]` from a query without repeated keys. */
  function Lookup(ps: seq<Param>, key: string): (v: Option<string>)
    ensures v.None? <==> forall i | 0 <= i < |ps| :: ps[i].key != key
    ensures v.Some? ==> Param(key, v.value) in ps
    decreases |ps|
  {
    if |ps| == 0 then None
    else if ps[0].key == key then Some(ps[0].value)
    else Lookup(ps[1..], key)
  }

  /** A key or value that cannot be confused with the query syntax. */
  predicate Plain(s: string) {
    forall i | 0 <= i < |s| :: s[i] != '&' && s[i] != '='
  }

  function Fields(ps: seq<Param>): (fs: seq<string>)
    ensures |fs| == |ps|
    ensures forall i | 0 <= i < |ps| :: fs[i] == ps[i].key + "=" + ps[i].value
  {
    seq(|ps|, i requires 0 <= i < |ps| => ps[i].key + "=" + ps[i].value)
  }

  lemma {:induction false} QueryIsJoin(ps: seq<Param>)
    requires |ps| >= 1
    ensures QueryString(ps) == Text.Join(Fields(ps), "&")
    decreases |ps|
  {
    if |ps| > 1 {
      QueryIsJoin(ps[1..]);
      assert Fields(ps)[1..] == Fields(ps[1..]);
    }
  }

  lemma ParamRoundTrip(p: Param)
    requires Plain(p.key) && Plain(p.value)
    ensures ParseParam(p.key + "=" + p.value) == p
  {
    var parts := [p.key, p.value];
    Text.SplitJoin(parts, "=");
    assert Text.Join(parts, "=") == p.key + "=" + p.value by {
      assert parts[1..] == [p.value];
    }
    assert parts[1..] == [p.value];
  }

  /** The fixed currency and purpose values hold no query syntax. */
  lemma FixedValuesPlain()
    ensures Plain("INR") && Plain(Purpose)
  {
  }

  /** No rendered field of a plain list holds `&`. */
  lemma FieldsAmpFree(ps: seq<Param>)
    requires forall i | 0 <= i < |ps| :: Plain(ps[i].key) && Plain(ps[i].value)
    ensures var fs := Fields(ps);
      forall k, i | 0 <= k < |fs| && 0 <= i < |fs[k]| :: fs[k][i] != '&'
  {
    var fs := Fields(ps);
    forall k, i | 0 <= k < |fs| && 0 <= i < |fs[k]|
      ensures fs[k][i] != '&'
    {
      FieldAmpFree(ps[k], i);
    }
  }

  lemma FieldAmpFree(p: Param, i: int)
    requires Plain(p.key) && Plain(p.value)
    requires 0 <= i < |p.key + "=" + p.value|
    ensures (p.key + "=" + p.value)[i] != '&'
  {
    var f := p.key + "=" + p.value;
    if i < |p.key| {
      assert f[i] == p.key[i];
    } else if i > |p.key| {
      assert f[i] == p.value[i - |p.key| - 1];
    }
  }

  /** A non-empty parameter list with plain keys and values reads back
      as itself. */
  lemma QueryRoundTrip(ps: seq<Param>)
    requires |ps| >= 1
    requires forall i | 0 <= i < |ps| :: Plain(ps[i].key) && Plain(ps[i].value)
    ensures ParseQuery(QueryString(ps)) == ps
  {
    var fs := Fields(ps);
    QueryIsJoin(ps);
    FieldsAmpFree(ps);
    Text.SplitJoin(fs, "&");
    assert Text.Split(QueryString(ps), "&") == fs;
    var r := ParseQuery(QueryString(ps));
    assert |r| == |ps|;
    forall i | 0 <= i < |ps|
      ensures r[i] == ps[i]
    {
      assert r[i] == ParseParam(fs[i]);
      ParamRoundTrip(ps[i]);
    }
  }
}
