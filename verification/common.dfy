/** Small vocabulary shared by every handler model: optional values, bytes,
    the JavaScript truthiness of optional strings, substring helpers and
    radix rendering of non-negative integers. */
module Common {

  /** A JavaScript value that may be `undefined`/`null`. */
  datatype Option<+T> = None | Some(value: T) {
    function GetOr(default: T): T {
      match this
      case Some(v) => v
      case None => default
    }
  }

  /** An octet. */
  type byte = x: int | 0 <= x < 256

  /** HTTP status codes used by the handlers. */
  const OK: int := 200
  const BAD_REQUEST: int := 400
  const FORBIDDEN: int := 403
  const NOT_FOUND: int := 404
  const METHOD_NOT_ALLOWED: int := 405
  const SERVER_ERROR: int := 500

  /** The site's name and the purpose every payment carries. */
  const Brand := "Celestial Oracle"
  const Purpose := "Astrology Reading"

  /** `!!v` for a string-valued field: absent and empty are both falsy. */
  predicate Truthy(v: Option<string>) {
    v.Some? && v.value != ""
  }

  /** `v || fallback` for a string-valued field. */
  function OrElse(v: Option<string>, fallback: string): string
  {
    if Truthy(v) then v.value else fallback
  }

  const DefaultAdminSecret := "celestial2024"

  /** `process.env.ADMIN_SECRET || 'celestial2024'`: the configured secret,
      or the built-in one when none is configured. Never empty. */
  function AdminSecret(configured: Option<string>): (s: string)
    ensures s != ""
    ensures Truthy(configured) ==> s == configured.value
    ensures !Truthy(configured) ==> s == DefaultAdminSecret
  {
    OrElse(configured, DefaultAdminSecret)
  }

  /** `s.replace(/c/g, '')` for one character `c`: every `c` removed,
      everything else kept in order. */
  function RemoveChar(s: string, c: char): (r: string)
    ensures c !in r
    ensures |r| <= |s|
    decreases |s|
  {
    if |s| == 0 then ""
    else if s[0] == c then RemoveChar(s[1..], c)
    else [s[0]] + RemoveChar(s[1..], c)
  }

  /** `s.substring(0, n)`: the prefix of length `min(n, |s|)`. */
  function Take(s: string, n: nat): (r: string)
    ensures |r| <= n && |r| <= |s|
    ensures r == s[..|r|]
    ensures |s| <= n ==> r == s
    ensures n <= |s| ==> |r| == n
  {
    if |s| <= n then s else s[..n]
  }

  predicate StartsWith(s: string, prefix: string) {
    |prefix| <= |s| && s[..|prefix|] == prefix
  }

  /** `s.includes(sub)`. */
  predicate Contains(s: string, sub: string)
    decreases |s|
  {
    StartsWith(s, sub) || (|s| > 0 && Contains(s[1..], sub))
  }

  /** Digit `v` in radix notation as `Number.prototype.toString` writes it. */
  function DigitChar(v: nat): (c: char)
    requires v < 36
  {
    if v < 10 then ('0' as int + v) as char else ('a' as int + v - 10) as char
  }

  /** Value of a digit character, accepting either letter case. */
  function DigitValue(c: char): (r: Option<nat>)
    ensures r.Some? ==> r.value < 36
  {
    if '0' <= c <= '9' then Some(c as int - '0' as int)
    else if 'a' <= c <= 'z' then Some(c as int - 'a' as int + 10)
    else if 'A' <= c <= 'Z' then Some(c as int - 'A' as int + 10)
    else None
  }

  lemma DigitValueOfDigitChar(v: nat)
    requires v < 36
    ensures DigitValue(DigitChar(v)) == Some(v)
  {
  }

  /** `n.toString(base)` for a non-negative integer: most significant digit
      first, no leading zeros, lower-case letters. */
  function ToRadix(n: nat, base: nat): (s: string)
    requires 2 <= base <= 36
    ensures |s| >= 1
    ensures forall i | 0 <= i < |s| :: DigitValue(s[i]).Some? && DigitValue(s[i]).value < base
    ensures n > 0 ==> s[0] != '0'
    decreases n
  {
    if n < base then [DigitChar(n)]
    else
      DivideByBase(n, base);
      ToRadix(n / base, base) + [DigitChar(n % base)]
  }

  lemma DivideByBase(n: nat, base: nat)
    requires 2 <= base <= n
    ensures 0 < n / base < n
    ensures 0 <= n % base < base
    ensures n == (n / base) * base + n % base
  {
    var q, r := n / base, n % base;
    Euclid(n, base);
    AtLeastDouble(q, base);
  }

  lemma Euclid(n: nat, base: nat)
    requires 2 <= base
    ensures n == (n / base) * base + n % base && 0 <= n % base < base && n / base >= 0
  {
  }

  lemma AtLeastDouble(q: nat, base: nat)
    requires 2 <= base
    ensures q * base >= 2 * q
  {
    assert q * base == q * (base - 2) + 2 * q;
  }

  /** Reads radix digits back (the partner of ToRadix). */
  function FromRadix(s: string, base: nat): Option<nat>
    requires 2 <= base <= 36
    decreases |s|
  {
    if |s| == 0 then Some(0)
    else
      match FromRadix(s[..|s| - 1], base)
      case None => None
      case Some(high) =>
        match DigitValue(s[|s| - 1])
        case None => None
        case Some(d) => if d < base then Some(high * base + d) else None
  }

  /** `String(n)` for a non-negative integer. */
  function Decimal(n: nat): string {
    ToRadix(n, 10)
  }

  lemma {:induction false} FromRadixToRadix(n: nat, base: nat)
    requires 2 <= base <= 36
    ensures FromRadix(ToRadix(n, base), base) == Some(n)
    decreases n
  {
    var s := ToRadix(n, base);
    if n < base {
      assert s[..0] == [];
      DigitValueOfDigitChar(n);
    } else {
      DivideByBase(n, base);
      FromRadixToRadix(n / base, base);
      assert s[..|s| - 1] == ToRadix(n / base, base);
      DigitValueOfDigitChar(n % base);
    }
  }

  /** ASCII `toUpperCase` (enough for radix digits). */
  function UpperChar(c: char): (u: char)
    ensures DigitValue(u) == DigitValue(c)
  {
    if 'a' <= c <= 'z' then (c as int - 32) as char else c
  }

  function ToUpper(s: string): (r: string)
    ensures |r| == |s|
    ensures forall i | 0 <= i < |s| :: r[i] == UpperChar(s[i])
  {
    seq(|s|, i requires 0 <= i < |s| => UpperChar(s[i]))
  }

  /** Radix digits survive upper-casing: FromRadix reads either case. */
  lemma {:induction false} FromRadixUpper(s: string, base: nat)
    requires 2 <= base <= 36
    ensures FromRadix(ToUpper(s), base) == FromRadix(s, base)
    decreases |s|
  {
    if |s| > 0 {
      var u := ToUpper(s);
      assert u[..|u| - 1] == ToUpper(s[..|s| - 1]);
      FromRadixUpper(s[..|s| - 1], base);
    }
  }
}
