/** The records the handlers pass around and the URL payload that carries
    them: `JSON.stringify`, then UTF-8 (`Buffer.from`), then URL-safe base64;
    and back. JSON itself is a parameter: a serialiser together with a parser
    that undoes it. */
module Records {
  import opened Common
  import Base64
  import Utf8
  import Zodiac

  /** The client's form fields; each may be absent from the request body. */
  datatype UserData = UserData(
    name: Option<string>, birthDate: Option<string>, birthTime: Option<string>,
    birthPlace: Option<string>, language: Option<string>, gender: Option<string>,
    questions: Option<string>)

  /** `readingData` of the payment handler, as the reading page reads it
      back. Absent fields are dropped by `JSON.stringify` and come back
      absent. */
  datatype ReadingData = ReadingData(
    name: Option<string>, birthDate: Option<string>, birthTime: Option<string>,
    birthPlace: Option<string>, language: Option<string>, gender: Option<string>,
    questions: Option<string>, zodiac: Option<Zodiac.Sign>,
    lifePathNumber: Option<nat>, reading: Option<string>,
    paymentId: Option<string>, generatedAt: Option<string>)

  /** `verificationData` of the verification-request handler (compact keys). */
  datatype VerificationData = VerificationData(
    n: string, bd: string, bt: string, bp: string, l: string, g: string, q: string, t: nat)

  /** `JSON.stringify` / `JSON.parse` for one record type; `parse` is None
      where `JSON.parse` throws or yields something that is not such a record. */
  datatype Codec<!T> = Codec(stringify: T -> string, parse: string -> Option<T>)

  /** Parsing what was serialised gives the value back. */
  ghost predicate Faithful<T(!new)>(c: Codec<T>) {
    forall x: T :: c.parse(c.stringify(x)) == Some(x)
  }

  /** `encodeData` and the reading-URL encoder: JSON, UTF-8, URL-safe base64. */
  function EncodePayload<T>(c: Codec<T>, x: T): (s: string)
    ensures forall i | 0 <= i < |s| :: Base64.IsUrlChar(s[i])
    ensures forall i | 0 <= i < |s| :: s[i] != '+' && s[i] != '/' && s[i] != '='
  {
    Base64.UrlEncode(Utf8.Encode(c.stringify(x)))
  }

  /** `decodeReading`: every failure (bad base64, bad UTF-8, bad JSON) is
      None rather than an exception. The base64 step is the strict decoder,
      which rejects a length of 1 modulo 4 where Node's would drop the last
      character. */
  function DecodePayload<T>(c: Codec<T>, s: string): (r: Option<T>)
    ensures |s| % 4 == 1 ==> r == None
  {
    match Base64.UrlDecode(s)
    case None => None
    case Some(bytes) =>
      match Utf8.Decode(bytes)
      case None => None
      case Some(json) => c.parse(json)
  }

  /** Decoding a payload gives back the encoded value. */
  lemma PayloadRoundTrip<T(!new)>(c: Codec<T>, x: T)
    requires Faithful(c)
    ensures DecodePayload(c, EncodePayload(c, x)) == Some(x)
  {
    var json := c.stringify(x);
    Base64.UrlRoundTrip(Utf8.Encode(json));
    Utf8.RoundTrip(json);
  }
}
