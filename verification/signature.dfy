/** HMAC-SHA256 tags as the handlers render them. The MAC itself is not
    modelled: handlers receive it as a function from (key, message) to a
    32-octet digest. What is modelled is `digest('hex')` and the 16-character
    truncation of the verification-request signature. */
module Signature {
  import opened Common

  /** An HMAC-SHA256 output. */
  type Digest = d: seq<byte> | |d| == 32 witness seq(32, i => 0)

  /** `crypto.createHmac('sha256', key).update(message).digest()`. */
  type Mac = (string, string) -> Digest

  predicate IsLowerHex(c: char) {
    ('0' <= c <= '9') || ('a' <= c <= 'f')
  }

  /** `digest('hex')`: two lower-case hex digits per octet, high nibble first. */
  function Hex(b: seq<byte>): (s: string)
    ensures |s| == 2 * |b|
    ensures forall i | 0 <= i < |s| :: IsLowerHex(s[i])
    decreases |b|
  {
    if |b| == 0 then ""
    else [DigitChar(b[0] / 16), DigitChar(b[0] % 16)] + Hex(b[1..])
  }

  /** Reads hex digits back in pairs (the partner of Hex). */
  function FromHex(s: string): Option<seq<byte>>
    decreases |s|
  {
    if |s| == 0 then Some([])
    else if |s| == 1 then None
    else
      match (DigitValue(s[0]), DigitValue(s[1]))
      case (Some(hi), Some(lo)) =>
        if hi < 16 && lo < 16 then
          match FromHex(s[2..])
          case None => None
          case Some(rest) => Some([hi * 16 + lo] + rest)
        else None
      case _ => None
  }

  lemma {:induction false} FromHexHex(b: seq<byte>)
    ensures FromHex(Hex(b)) == Some(b)
    decreases |b|
  {
    if |b| > 0 {
      var s := Hex(b);
      assert s[2..] == Hex(b[1..]);
      DigitValueOfDigitChar(b[0] / 16);
      DigitValueOfDigitChar(b[0] % 16);
      FromHexHex(b[1..]);
      assert b == [b[0]] + b[1..];
    }
  }

  /** The hex rendering of a prefix is the prefix of the hex rendering. */
  lemma {:induction false} HexPrefix(b: seq<byte>, n: nat)
    requires n <= |b|
    ensures Hex(b)[..2 * n] == Hex(b[..n])
    decreases n
  {
    if n > 0 {
      HexPrefix(b[1..], n - 1);
      assert b[..n][1..] == b[1..][..n - 1];
      assert Hex(b) == Hex(b[..1]) + Hex(b[1..]);
    }
  }

  /** `hmac.digest('hex').substring(0, 16)`: the truncated tag of
      api/verify-request.js. It is the hex of the first eight digest octets. */
  function Tag(d: Digest): (t: string)
    ensures |t| == 16
    ensures forall i | 0 <= i < 16 :: IsLowerHex(t[i])
    ensures t == Hex(d[..8])
  {
    HexPrefix(d, 8);
    Take(Hex(d), 16)
  }
}
