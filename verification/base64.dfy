/** Base64 as RFC 4648 section 4 defines it (alphabet `A-Z a-z 0-9 + /`,
    `=` padding to a multiple of four characters), and the URL-safe form
    the handlers derive from it: `+` becomes `-`, `/` becomes `_` and every
    `=` is dropped. Decoding reverses the character swap, pads back to a
    multiple of four and decodes strictly. */
module Base64 {
  import opened Common

  predicate IsStdChar(c: char) {
    ('A' <= c <= 'Z') || ('a' <= c <= 'z') || ('0' <= c <= '9') || c == '+' || c == '/'
  }

  /** The characters the URL-safe encoder may emit. */
  predicate IsUrlChar(c: char) {
    ('A' <= c <= 'Z') || ('a' <= c <= 'z') || ('0' <= c <= '9') || c == '-' || c == '_'
  }

  /** The character of a six-bit value. */
  function SextetChar(v: int): (c: char)
    requires 0 <= v < 64
    ensures IsStdChar(c)
  {
    if v < 26 then ('A' as int + v) as char
    else if v < 52 then ('a' as int + (v - 26)) as char
    else if v < 62 then ('0' as int + (v - 52)) as char
    else if v == 62 then '+'
    else '/'
  }

  /** The six-bit value of a character, or None outside the alphabet. */
  function SextetValue(c: char): (r: Option<int>)
    ensures r.Some? <==> IsStdChar(c)
    ensures r.Some? ==> 0 <= r.value < 64 && SextetChar(r.value) == c
  {
    if 'A' <= c <= 'Z' then Some(c as int - 'A' as int)
    else if 'a' <= c <= 'z' then Some(c as int - 'a' as int + 26)
    else if '0' <= c <= '9' then Some(c as int - '0' as int + 52)
    else if c == '+' then Some(62)
    else if c == '/' then Some(63)
    else None
  }

  lemma SextetRoundTrip(v: int)
    requires 0 <= v < 64
    ensures SextetValue(SextetChar(v)) == Some(v)
  {
  }

  /** Three octets as four characters. */
  function EncodeBlock(a: byte, b: byte, c: byte): (s: string)
    ensures |s| == 4
    ensures forall i | 0 <= i < 4 :: IsStdChar(s[i])
  {
    [SextetChar(a / 4), SextetChar((a % 4) * 16 + b / 16), SextetChar((b % 16) * 4 + c / 64), SextetChar(c % 64)]
  }

  /** `s` is `k` alphabet characters followed only by `=`. */
  predicate PaddedShape(s: string, k: nat) {
    && k <= |s|
    && (forall i | 0 <= i < k :: IsStdChar(s[i]))
    && (forall i | k <= i < |s| :: s[i] == '=')
  }

  /** The standard encoding of `bytes`; the contract pins down its shape:
      a run of ceil(4n/3) alphabet characters, then `=` up to a multiple of
      four. */
  function StdEncode(bytes: seq<byte>): (s: string)
    ensures |s| % 4 == 0
    ensures PaddedShape(s, UnpaddedLength(|bytes|))
    ensures |s| == UnpaddedLength(|bytes|) + PadCount(|bytes|)
    decreases |bytes|
  {
    if |bytes| == 0 then ""
    else if |bytes| == 1 then
      assert UnpaddedLength(1) == 2;
      EncodeLastOne(bytes[0])
    else if |bytes| == 2 then
      assert UnpaddedLength(2) == 3;
      EncodeLastTwo(bytes[0], bytes[1])
    else
      var head := EncodeBlock(bytes[0], bytes[1], bytes[2]);
      var tail := StdEncode(bytes[3..]);
      var k := UnpaddedLength(|bytes| - 3);
      UnpaddedStep(|bytes| - 3);
      assert UnpaddedLength(|bytes|) == k + 4;
      ShapeAfterBlock(head, tail, k);
      assert |head + tail| == |tail| + 4;
      FourMore(|tail|);
      head + tail
  }

  lemma FourMore(n: nat)
    requires n % 4 == 0
    ensures (n + 4) % 4 == 0
  {
  }

  /** A final single octet: two characters and `==`. */
  function EncodeLastOne(a: byte): (s: string)
    ensures |s| == 4 && PaddedShape(s, 2)
  {
    [SextetChar(a / 4), SextetChar((a % 4) * 16), '=', '=']
  }

  /** A final pair of octets: three characters and `=`. */
  function EncodeLastTwo(a: byte, b: byte): (s: string)
    ensures |s| == 4 && PaddedShape(s, 3)
  {
    [SextetChar(a / 4), SextetChar((a % 4) * 16 + b / 16), SextetChar((b % 16) * 4), '=']
  }

  /** How many `=` close the encoding of n octets. */
  function PadCount(n: nat): nat {
    if n % 3 == 0 then 0 else 3 - n % 3
  }

  lemma UnpaddedStep(n: nat)
    ensures UnpaddedLength(n + 3) == UnpaddedLength(n) + 4
    ensures PadCount(n + 3) == PadCount(n)
  {
    ThirdsShift(4 * n + 2, 4);
    ThirdsShift(n, 1);
  }

  lemma ThirdsShift(x: nat, k: nat)
    ensures (x + 3 * k) / 3 == x / 3 + k
    ensures (x + 3 * k) % 3 == x % 3
  {
  }

  lemma ShapeAfterBlock(head: string, tail: string, k: nat)
    requires |head| == 4 && forall i | 0 <= i < 4 :: IsStdChar(head[i])
    requires PaddedShape(tail, k)
    ensures PaddedShape(head + tail, k + 4)
  {
    var s := head + tail;
    forall i | 4 <= i < |s|
      ensures s[i] == tail[i - 4]
    {
    }
  }

  /** ceil(4n/3): the number of alphabet characters encoding n octets. */
  function UnpaddedLength(n: nat): nat {
    (4 * n + 2) / 3
  }

  /** Four alphabet characters back to three octets. */
  function DecodeBlock(s: string): (r: Option<seq<byte>>)
    requires |s| == 4
    ensures r.Some? ==> |r.value| == 3
  {
    match (SextetValue(s[0]), SextetValue(s[1]), SextetValue(s[2]), SextetValue(s[3]))
    case (Some(v0), Some(v1), Some(v2), Some(v3)) =>
      Some([v0 * 4 + v1 / 16, (v1 % 16) * 16 + v2 / 4, (v2 % 4) * 64 + v3])
    case _ => None
  }

  /** The last quantum, which may end in `==` (one octet) or `=` (two). */
  function DecodeFinal(s: string): (r: Option<seq<byte>>)
    requires |s| == 4
    ensures r.Some? ==> 1 <= |r.value| <= 3
  {
    if s[2] == '=' && s[3] == '=' then
      match (SextetValue(s[0]), SextetValue(s[1]))
      case (Some(v0), Some(v1)) => Some([v0 * 4 + v1 / 16])
      case _ => None
    else if s[3] == '=' then
      match (SextetValue(s[0]), SextetValue(s[1]), SextetValue(s[2]))
      case (Some(v0), Some(v1), Some(v2)) => Some([v0 * 4 + v1 / 16, (v1 % 16) * 16 + v2 / 4])
      case _ => None
    else DecodeBlock(s)
  }

  /** Strict decoding of the standard form: the length must be a multiple of
      four, `=` may only close the last quantum, and every other character
      must belong to the alphabet. */
  function StdDecode(s: string): (r: Option<seq<byte>>)
    decreases |s|
  {
    if |s| == 0 then Some([])
    else if |s| < 4 then None
    else if |s| == 4 then DecodeFinal(s)
    else
      match DecodeBlock(s[..4])
      case None => None
      case Some(head) =>
        match StdDecode(s[4..])
        case None => None
        case Some(tail) => Some(head + tail)
  }

  lemma BlockRoundTrip(a: byte, b: byte, c: byte)
    ensures DecodeBlock(EncodeBlock(a, b, c)) == Some([a, b, c])
  {
    var v0, v1, v2, v3 := a / 4, (a % 4) * 16 + b / 16, (b % 16) * 4 + c / 64, c % 64;
    SextetRoundTrip(v0);
    SextetRoundTrip(v1);
    SextetRoundTrip(v2);
    SextetRoundTrip(v3);
    SplitSextet(a % 4, b / 16, 16);
    SplitSextet(b % 16, c / 64, 4);
    var s := EncodeBlock(a, b, c);
    assert s == [SextetChar(v0), SextetChar(v1), SextetChar(v2), SextetChar(v3)];
    assert v0 * 4 + v1 / 16 == a;
    assert (v1 % 16) * 16 + v2 / 4 == b;
    assert (v2 % 4) * 64 + v3 == c;
  }

  /** Reading back the two parts packed into one sextet. */
  lemma SplitSextet(high: int, low: int, scale: int)
    requires scale == 4 || scale == 16
    requires 0 <= low < scale
    ensures (high * scale + low) / scale == high
    ensures (high * scale + low) % scale == low
  {
  }

  lemma LastOneRoundTrip(a: byte)
    ensures DecodeFinal(EncodeLastOne(a)) == Some([a])
  {
    var s := EncodeLastOne(a);
    SextetRoundTrip(a / 4);
    SextetRoundTrip((a % 4) * 16);
    SplitSextet(a % 4, 0, 16);
    assert SextetValue(s[0]) == Some(a / 4) && SextetValue(s[1]) == Some((a % 4) * 16);
  }

  lemma LastTwoRoundTrip(a: byte, b: byte)
    ensures DecodeFinal(EncodeLastTwo(a, b)) == Some([a, b])
  {
    var s := EncodeLastTwo(a, b);
    var v0, v1, v2 := a / 4, (a % 4) * 16 + b / 16, (b % 16) * 4;
    SextetRoundTrip(v0);
    SextetRoundTrip(v1);
    SextetRoundTrip(v2);
    SplitSextet(a % 4, b / 16, 16);
    SplitSextet(b % 16, 0, 4);
    assert SextetValue(s[0]) == Some(v0) && SextetValue(s[1]) == Some(v1) && SextetValue(s[2]) == Some(v2);
    assert v0 * 4 + v1 / 16 == a;
    assert (v1 % 16) * 16 + v2 / 4 == b;
  }

  lemma {:induction false} StdRoundTrip(bytes: seq<byte>)
    ensures StdDecode(StdEncode(bytes)) == Some(bytes)
    decreases |bytes|
  {
    if |bytes| == 1 {
      LastOneRoundTrip(bytes[0]);
      assert bytes == [bytes[0]];
    } else if |bytes| == 2 {
      LastTwoRoundTrip(bytes[0], bytes[1]);
      assert bytes == [bytes[0], bytes[1]];
    } else if |bytes| == 3 {
      LastBlockRoundTrip(bytes);
    } else if |bytes| > 3 {
      StdRoundTrip(bytes[3..]);
      BlockThenRest(bytes);
    }
  }

  lemma LastBlockRoundTrip(bytes: seq<byte>)
    requires |bytes| == 3
    ensures StdDecode(StdEncode(bytes)) == Some(bytes)
  {
    var s := EncodeBlock(bytes[0], bytes[1], bytes[2]);
    EncodeThree(bytes);
    DecodeUnpadded(s);
    BlockRoundTrip(bytes[0], bytes[1], bytes[2]);
    ThreeElements(bytes);
  }

  lemma ThreeElements(bytes: seq<byte>)
    requires |bytes| == 3
    ensures bytes == [bytes[0], bytes[1], bytes[2]]
  {
  }

  lemma EncodeThree(bytes: seq<byte>)
    requires |bytes| == 3
    ensures StdEncode(bytes) == EncodeBlock(bytes[0], bytes[1], bytes[2])
  {
    assert StdEncode(bytes[3..]) == "" by {
      assert bytes[3..] == [];
    }
  }

  /** A last quantum without padding decodes as a full block. */
  lemma DecodeUnpadded(s: string)
    requires |s| == 4 && IsStdChar(s[2]) && IsStdChar(s[3])
    ensures StdDecode(s) == DecodeBlock(s)
  {
  }

  lemma BlockThenRest(bytes: seq<byte>)
    requires |bytes| > 3
    requires StdDecode(StdEncode(bytes[3..])) == Some(bytes[3..])
    ensures StdDecode(StdEncode(bytes)) == Some(bytes)
  {
    var head := EncodeBlock(bytes[0], bytes[1], bytes[2]);
    var tail := StdEncode(bytes[3..]);
    assert StdEncode(bytes) == head + tail;
    BlockRoundTrip(bytes[0], bytes[1], bytes[2]);
    DecodeStep(head, tail, [bytes[0], bytes[1], bytes[2]], bytes[3..]);
    SplitThree(bytes);
  }

  lemma SplitThree(bytes: seq<byte>)
    requires |bytes| >= 3
    ensures bytes == [bytes[0], bytes[1], bytes[2]] + bytes[3..]
  {
  }

  lemma DecodeStep(head: string, tail: string, h: seq<byte>, t: seq<byte>)
    requires |head| == 4 && |tail| >= 4
    requires DecodeBlock(head) == Some(h)
    requires StdDecode(tail) == Some(t)
    ensures StdDecode(head + tail) == Some(h + t)
  {
    var s := head + tail;
    assert s[..4] == head && s[4..] == tail;
  }

  // ---- the URL-safe form ----------------------------------------------

  function UrlSwapChar(c: char): char {
    if c == '+' then '-' else if c == '/' then '_' else c
  }

  function StdSwapChar(c: char): char {
    if c == '-' then '+' else if c == '_' then '/' else c
  }

  /** `.replace(/\+/g, '-').replace(/\//g, '_')`. */
  function ToUrlAlphabet(s: string): (r: string)
    ensures |r| == |s|
    ensures forall i | 0 <= i < |s| :: r[i] == UrlSwapChar(s[i])
  {
    seq(|s|, i requires 0 <= i < |s| => UrlSwapChar(s[i]))
  }

  /** `.replace(/-/g, '+').replace(/_/g, '/')`. */
  function ToStdAlphabet(s: string): (r: string)
    ensures |r| == |s|
    ensures forall i | 0 <= i < |s| :: r[i] == StdSwapChar(s[i])
  {
    seq(|s|, i requires 0 <= i < |s| => StdSwapChar(s[i]))
  }

  /** `.replace(/=/g, '')`: every `=` removed, everything else kept in order. */
  function StripPadding(s: string): string {
    RemoveChar(s, '=')
  }

  /** `while (s.length % 4) s += '='`. */
  function PadToQuantum(s: string): (r: string)
    ensures |r| % 4 == 0
    ensures |s| <= |r| <= |s| + 3
    ensures r[..|s|] == s
    ensures forall i | |s| <= i < |r| :: r[i] == '='
    decreases (4 - |s| % 4) % 4
  {
    if |s| % 4 == 0 then s else PadToQuantum(s + "=")
  }

  /** The encoder of the verify-payment and verify-request handlers. */
  function UrlEncode(bytes: seq<byte>): (s: string)
    ensures |s| == UnpaddedLength(|bytes|)
    ensures forall i | 0 <= i < |s| :: IsUrlChar(s[i])
  {
    var std := StdEncode(bytes);
    StdShapeStripped(std, UnpaddedLength(|bytes|));
    StripPadding(ToUrlAlphabet(std))
  }

  /** The decoder of the reading handler, with `Buffer.from(_, 'base64')`
      taken as the strict standard decoder. */
  function UrlDecode(s: string): (r: Option<seq<byte>>)
    ensures |s| % 4 == 1 ==> r == None
  {
    var padded := PadToQuantum(ToStdAlphabet(s));
    assert |padded| % 4 == 1 ==> false;
    OneExtraCharFails(padded, |s|);
    StdDecode(padded)
  }

  /** After the URL swap the padding starts at `k` and nothing else is `=`,
      so stripping leaves exactly the first `k` swapped characters. */
  lemma StdShapeStripped(std: string, k: nat)
    requires k <= |std|
    requires forall i | 0 <= i < k :: IsStdChar(std[i])
    requires forall i | k <= i < |std| :: std[i] == '='
    ensures StripPadding(ToUrlAlphabet(std)) == ToUrlAlphabet(std[..k])
    ensures forall i | 0 <= i < k :: IsUrlChar(ToUrlAlphabet(std)[i])
  {
    var u := ToUrlAlphabet(std);
    StripPaddingSplit(u, k);
    assert u[..k] == ToUrlAlphabet(std[..k]);
  }

  lemma {:induction false} StripPaddingSplit(s: string, k: nat)
    requires k <= |s|
    requires forall i | 0 <= i < k :: s[i] != '='
    requires forall i | k <= i < |s| :: s[i] == '='
    ensures StripPadding(s) == s[..k]
    decreases |s|
  {
    if |s| > 0 {
      if k == 0 {
        StripPaddingSplit(s[1..], 0);
      } else {
        StripPaddingSplit(s[1..], k - 1);
        assert s[..k] == [s[0]] + s[1..][..k - 1];
      }
    }
  }

  /** A padded string whose source had length 1 modulo 4 ends in `x===`,
      which no quantum decodes. */
  lemma {:induction false} OneExtraCharFails(padded: string, n: nat)
    requires n <= |padded| <= n + 3 && |padded| % 4 == 0
    requires forall i | n <= i < |padded| :: padded[i] == '='
    ensures n % 4 == 1 ==> StdDecode(padded) == None
    decreases |padded|
  {
    if n % 4 == 1 {
      OneExtraLength(n, |padded|);
      if |padded| > 4 {
        assert padded[4..][|padded| - 5] == padded[|padded| - 1];
        OneExtraCharFails(padded[4..], n - 4);
      } else {
        assert padded[1] == '=';
      }
    }
  }

  lemma OneExtraLength(n: nat, k: nat)
    requires n <= k <= n + 3 && k % 4 == 0 && n % 4 == 1
    ensures k == n + 3
    ensures k > 4 ==> n >= 4 && (n - 4) % 4 == 1 && (k - 4) % 4 == 0
  {
  }

  /** The reading handler decodes whatever the payment handler encodes. */
  lemma UrlRoundTrip(bytes: seq<byte>)
    ensures UrlDecode(UrlEncode(bytes)) == Some(bytes)
  {
    var std := StdEncode(bytes);
    var k := UnpaddedLength(|bytes|);
    UnswapUnpadded(std, k);
    RepadRestores(std, k);
    StdRoundTrip(bytes);
  }

  /** Swapping back the stripped URL form gives the unpadded standard form. */
  lemma UnswapUnpadded(std: string, k: nat)
    requires PaddedShape(std, k)
    ensures ToStdAlphabet(StripPadding(ToUrlAlphabet(std))) == std[..k]
  {
    StdShapeStripped(std, k);
    var back := ToStdAlphabet(ToUrlAlphabet(std[..k]));
    assert forall i | 0 <= i < k :: back[i] == std[..k][i];
  }

  /** Re-padding the unpadded part of a padded standard string restores it. */
  lemma RepadRestores(std: string, k: nat)
    requires PaddedShape(std, k) && |std| % 4 == 0 && |std| - k <= 3
    ensures PadToQuantum(std[..k]) == std
  {
    var padded := PadToQuantum(std[..k]);
    assert |padded| == |std|;
    forall i | 0 <= i < |std|
      ensures padded[i] == std[i]
    {
      if i < k {
        assert padded[i] == padded[..k][i];
      }
    }
  }
}
