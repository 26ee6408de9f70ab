# Celestial Oracle handlers in Dafny

A model of the serverless HTTP handlers behind the Celestial Oracle
pay-per-use astrology service, with proofs about them. The handlers are:

- **create-order**: creates a payment-gateway order for the configured
  amount. The amount is sent in paise, the currency is INR, the receipt
  carries a timestamp, and the request uses a Basic credential built from
  the key pair.
- **verify-payment**:
  - checks the gateway's HMAC-SHA256 signature over
    `order_id|payment_id`;
  - works out the sun sign and the life-path number;
  - has the reading generated;
  - packs the reading record into a URL-safe base64 payload (JSON, then
    UTF-8, then base64 with `+`→`-`, `/`→`_` and no `=`);
  - answers with the reading URL.
- **reading**:
  - decodes that payload;
  - answers 400 when it is missing or unusable;
  - otherwise renders the reading as the HTML page or the PDF page, each
    with its own rewrite of the text (headings, paragraphs, line markers).
- **verify-request**:
  - validates the client's form;
  - builds the compact verification record (truncated fields, defaults,
    timestamp) and tags it with a 16-hex-digit HMAC prefix;
  - answers with an admin approval link carrying the record and the tag.
- **approve**:
  - is a transition over the in-memory map of pending verifications;
  - checks, in order, the admin secret, the presence of the id and that the
    id is known;
  - then `action=approve` or `action=reject` overwrites the entry's status,
    and any other action only shows the entry, with approve/reject links
    while it is pending.
- **payment** and **Payment**: two variants of the UPI handler. Each builds
  one `key=value` query (payee address, payee name, amount, currency, note,
  and in the second a transaction id) and shares it among the payment apps'
  URL schemes. The first sanitises the payee name and adds a base-36
  transaction reference. The second masks the UPI id for display with the
  regular expression `/(.{3}).*(@.*)/`.

Each handler is a pure function from its configuration, the request and its
foreign inputs to a reply, which names the HTTP status. Foreign inputs are
passed in as parameters:

- the clock;
- the HMAC;
- the JSON serialiser and parser;
- the text generator;
- the calendar;
- the payment gateway.

The approval handler also returns the store after the request. The
encodings the handlers rely on are modelled to the octet and proved:

- base64 (RFC 4648 section 4) and its URL-safe form;
- UTF-8 (RFC 3629);
- lower-case hex;
- radix rendering (`Number.prototype.toString`);
- the query string and how it reads back.

The zodiac table and the life-path reduction are also proved against
independent descriptions.

Three things in the code go against the design the handlers suggest, and
the model follows the code each time:

- The approval handler does not check a signed token, and nothing expires.
  It is a plain map machine, keyed by `id` and gated by the `secret` query
  parameter.
- The approval link built by verify-request carries only `d` and `sig`.
  The approval handler reads `id` and `secret`, so opening that link is
  always refused with 403. `Flow.ApprovalLinkRefused` proves this.
- The second UPI handler (`api/Payment.js`) has no method check beyond
  `OPTIONS`.

Modules: `Common`, `Text`, `Web`, `Base64`, `Utf8`, `Signature`, `Records`,
`Zodiac`, `Numerology`, `VerifyPayment`, `Reading`, `VerifyRequest`,
`Approve`, `UpiPayment` (`api/payment.js`), `UpiLinks` (`api/Payment.js`),
`CreateOrder`, `Flow`.

## Model

| member | source | states |
|---|---|---|
| Common.AdminSecret | api/approve.js:19 | the admin secret is the configured one when set and non-empty, else `celestial2024`; it is never empty |
| Common.Take | api/verify-request.js:50 | `substring(0, n)` is the prefix of length n, or the whole string when it is shorter |
| Common.RemoveChar | api/verify-payment.js:79 | `replace(/c/g, '')` leaves no `c` and adds nothing (the padding strip here, the dash removal at line 139) |
| Common.ToRadix | api/payment.js:28 | `toString(base)` yields at least one digit, every digit below the base, no leading zero for a positive number |
| Common.FromRadixToRadix | api/payment.js:28 | reading the radix digits back gives the number (round trip) |
| Common.ToUpper | api/payment.js:28 | upper-casing keeps the length and maps each character on its own |
| Common.UpperChar | api/payment.js:28 | upper-casing a character keeps its digit value |
| Common.FromRadixUpper | api/payment.js:28 | upper-cased radix digits read back as the same number |
| Common.DigitValueOfDigitChar | api/payment.js:28 | each digit character reads back as its value |
| Text.Split | api/reading.js:139 | `split` on a non-empty separator yields at least one part |
| Text.ReplaceIsSplitJoin | api/reading.js:38 | a global literal replacement equals splitting on the pattern and joining with the replacement |
| Text.SplitJoin | api/reading.js:139 | splitting undoes joining when no part holds the separator's first character |
| Text.SplitFreePrefix | api/reading.js:139 | a prefix without the separator's first character stays in the first part |
| Text.SplitAtFirst | api/reading.js:139 | the first part ends at the first separator occurrence, and the rest is the split of what follows it |
| Text.SplitShort | api/reading.js:139 | a string shorter than the separator is one part |
| Text.SplitKeepsAbsent | api/reading.js:139 | no part holds a character the string lacks |
| Text.ReplaceRemovesChar | api/reading.js:38 | replacing a character by text without it removes every occurrence |
| Text.ReplaceKeepsAbsent | api/reading.js:206-207 | replacement never introduces a character that is in neither the text nor the replacement |
| Text.ReplaceAbsent | api/reading.js:38 | a pattern whose first character does not occur leaves the text unchanged |
| Text.ReplaceCharConcat | api/reading.js:207 | replacing a one-character pattern distributes over concatenation |
| Text.ReplaceEach | api/reading.js:207 | the per-part replacement keeps the number of parts and replaces in each |
| Text.ReplaceCharJoin | api/reading.js:206-207 | replacing a character absent from the separator commutes with joining |
| Text.StarFreeRun | api/reading.js:37 | what `[^*]+` consumes: the longest star-free prefix, stopped by a `*` or the end |
| Text.StarFreeRunStopsAtStar | api/reading.js:37 | the run over a star-free word followed by `*` is that word |
| Text.HeadingAt | api/reading.js:37 | a found heading is `**`, a non-empty star-free run, `**` |
| Text.HeadingFound | api/reading.js:37 | `**x**` with `x` non-empty and star-free is found, with the length of `x` |
| Text.HeadingRewritten | api/reading.js:37 | `**x**` becomes open + x + close and the scan resumes after it |
| Text.HeadingsIdentity | api/reading.js:206 | text without `*` has no heading to rewrite |
| Web.Protocol | api/verify-payment.js:83 | `http` exactly when the host contains `localhost`, else `https` |
| Web.Lookup | api/approve.js:18 | a query value is absent exactly when no parameter has that key, and a found value belongs to a parameter with that key |
| Web.ParseQuery | api/payment.js:44 | reading a query back yields at least one field |
| Web.Fields | api/payment.js:44 | each rendered field is `key=value` of its parameter |
| Web.QueryCons | api/payment.js:44 | the query of a longer list is the first field, `&`, and the query of the rest |
| Web.QueryIsJoin | api/payment.js:44 | the query is its fields joined by `&` |
| Web.ParamRoundTrip | api/payment.js:38-42 | a plain `key=value` field reads back as its parameter |
| Web.FieldsAmpFree | api/payment.js:44 | no rendered field of a plain parameter list holds `&` |
| Web.QueryRoundTrip | api/payment.js:37-44 | a non-empty list of plain parameters reads back as itself, in order |
| Web.FixedValuesPlain | api/payment.js:41-42 | the fixed currency and note hold no query syntax |
| Base64.SextetChar | api/verify-payment.js:76 | every six-bit value maps to an alphabet character |
| Base64.SextetValue | api/reading.js:7 | a character has a value exactly when it is in the alphabet, and that value maps back to it |
| Base64.SextetRoundTrip | api/reading.js:7 | a six-bit value reads back from its character |
| Base64.EncodeBlock | api/verify-payment.js:76 | three octets become four alphabet characters |
| Base64.EncodeLastOne | api/verify-payment.js:76 | a final octet becomes two characters and `==` |
| Base64.EncodeLastTwo | api/verify-payment.js:76 | a final pair becomes three characters and `=` |
| Base64.StdEncode | api/verify-payment.js:75-76 | the length is a multiple of four: ceil(4n/3) alphabet characters, then `=` only |
| Base64.UnpaddedStep | api/verify-payment.js:76 | three more octets add four characters and no padding |
| Base64.DecodeBlock | api/reading.js:7 | a decoded quantum is three octets |
| Base64.DecodeFinal | api/reading.js:7 | a decoded last quantum is one to three octets |
| Base64.BlockRoundTrip | api/reading.js:7 | a block decodes to its three octets |
| Base64.LastOneRoundTrip | api/reading.js:7 | a `==` quantum decodes to its octet |
| Base64.LastTwoRoundTrip | api/reading.js:7 | a `=` quantum decodes to its two octets |
| Base64.StdRoundTrip | api/reading.js:7 | strict decoding of the standard encoding returns the octets |
| Base64.ToUrlAlphabet | api/verify-payment.js:77-78 | `+`→`-` and `/`→`_` character by character, same length |
| Base64.ToStdAlphabet | api/reading.js:5 | `-`→`+` and `_`→`/` character by character, same length |
| Base64.PadToQuantum | api/reading.js:6 | `=` is appended, at most three, up to a multiple of four, and the text is kept as a prefix |
| Base64.UrlEncode | api/verify-payment.js:75-79 | the URL-safe form is ceil(4n/3) URL-safe characters |
| Base64.UrlDecode | api/reading.js:5-7 | with `Buffer.from` taken as the strict RFC 4648 decoder, a payload of length 1 modulo 4 never decodes (Node's own decoder differs, see Left out) |
| Base64.StdShapeStripped | api/verify-payment.js:77-79 | after the swap, stripping leaves exactly the swapped alphabet part |
| Base64.StripPaddingSplit | api/verify-payment.js:79 | stripping a text whose `=` all trail it leaves the part before them |
| Base64.UnswapUnpadded | api/reading.js:5 | swapping the stripped URL form back gives the unpadded standard form |
| Base64.RepadRestores | api/reading.js:6 | re-padding the unpadded part restores the padded standard form |
| Base64.OneExtraCharFails | api/reading.js:6-7 | for the strict decoder: a padded payload whose source had length 1 modulo 4 does not decode |
| Base64.UrlRoundTrip | api/reading.js:5-7 | the reading handler decodes whatever the payment handler encodes |
| Utf8.EncodeChar | api/verify-payment.js:75 | a scalar takes one to four octets, one exactly below U+0080 (the octet itself), the rest continuation octets |
| Utf8.Encode | api/verify-payment.js:75 | the encoding takes between one and four octets per character |
| Utf8.DecodeFirst | api/reading.js:7 | a decoded scalar consumes between one octet and the whole input |
| Utf8.DecodeFirstEncodeChar | api/reading.js:7 | decoding an encoded scalar followed by anything returns it and its length |
| Utf8.RoundTrip | api/reading.js:7 | `toString('utf8')` undoes `Buffer.from(s)` |
| Utf8.AsciiIsIdentity | api/create-order.js:41 | ASCII text encodes octet for octet |
| Signature.Hex | api/verify-payment.js:37 | `digest('hex')` is two lower-case hex digits per octet |
| Signature.FromHexHex | api/verify-payment.js:37 | the hex rendering reads back as the octets |
| Signature.HexPrefix | api/verify-request.js:8 | the hex of a prefix is the prefix of the hex |
| Signature.Tag | api/verify-request.js:8 | the truncated tag is 16 lower-case hex digits, the hex of the first eight digest octets |
| Records.EncodePayload | api/verify-request.js:12-18 | the payload holds only URL-safe characters: no `+`, `/` or `=` |
| Records.DecodePayload | api/reading.js:3-11 | every failure is None rather than an exception; with the strict decoder, a payload of length 1 modulo 4 is rejected |
| Records.PayloadRoundTrip | api/reading.js:3-11 | decoding a payload gives back the encoded record, given a faithful JSON codec |
| Zodiac.FirstMatch | api/verify-payment.js:125-133 | the scan returns the first table index whose range holds the date, or the table length |
| Zodiac.GetZodiac | api/verify-payment.js:105-135 | the result is one of the twelve signs |
| Zodiac.ReferenceIndex | api/verify-payment.js:110-123 | the independent per-month cusp description names a sign |
| Zodiac.MatchesExactlyReference | api/verify-payment.js:125-133 | in months 1..12 a sign's range holds a date exactly when it is the reference sign, for any day |
| Zodiac.NoMatchOutsideYear | api/verify-payment.js:125-134 | no range holds a month outside 1..12 |
| Zodiac.FirstMatchIsReference | api/verify-payment.js:125-134 | the scan finds the reference sign, and falls through to the default exactly for months outside 1..12 |
| Zodiac.SignsDistinct | api/verify-payment.js:110-123 | the twelve table entries are pairwise different |
| Zodiac.NonWrappingRange | api/verify-payment.js:130-131 | each sign but Capricorn is returned exactly from its start day in its start month to its end day in its end month |
| Zodiac.CapricornRange | api/verify-payment.js:128-134 | Capricorn is returned exactly from 22 December, up to 19 January, and for out-of-range months |
| Zodiac.BoundaryExamples | api/verify-payment.js:111-122 | the boundary dates 12/22, 1/19, 1/20, 3/21, 8/20 and 12/21 get their table signs |
| Numerology.CharNumber | api/verify-payment.js:139 | `Number(c)` of one character is a digit value 0..9 or NaN |
| Numerology.DashesOfThree | api/verify-payment.js:139 | three dash-free fields joined by dashes lose exactly the dashes |
| Numerology.RemoveDashesSplit | api/verify-payment.js:139 | removing dashes around one dash works on each side |
| Numerology.DashFreeUnchanged | api/verify-payment.js:139 | a dash-free string is unchanged |
| Numerology.SumCharsConcat | api/verify-payment.js:140 | summing characters works piecewise, and NaN on either side is NaN |
| Numerology.SumCharsSnoc | api/verify-payment.js:140 | appending a character adds its number, or gives NaN |
| Numerology.SumCharsWithNaN | api/verify-payment.js:140 | NaN in the first part makes the whole sum NaN |
| Numerology.SumCharsNaNTail | api/verify-payment.js:140 | NaN in the second part makes the whole sum NaN |
| Numerology.DigitSumOfDecimal | api/verify-payment.js:142 | summing the characters of `String(n)` is the arithmetic digit sum |
| Numerology.DigitSumAtMost | api/verify-payment.js:142 | the digit sum is at most the number, and positive for a positive number |
| Numerology.DigitSumDrops | api/verify-payment.js:141-142 | above 9 the digit sum is smaller, so the loop terminates |
| Numerology.DigitSumMod9 | api/verify-payment.js:142 | the digit sum keeps the residue modulo 9 |
| Numerology.Reduce | api/verify-payment.js:141-143 | the loop ends at most 9 or on a master number, never above its start |
| Numerology.ReduceProperties | api/verify-payment.js:141-143 | the loop keeps the residue modulo 9, leaves a qualifying number alone and keeps a positive number positive |
| Numerology.LifePath | api/verify-payment.js:138-145 | a life-path number is at most 9 or a master number |
| Numerology.LifePathNaN | api/verify-payment.js:139-140 | a character that `Number` reads as NaN (not a digit, dash or whitespace; a letter, say) makes the result NaN |
| Numerology.NaNSurvivesDashRemoval | api/verify-payment.js:139-140 | a NaN character survives dash removal and poisons the sum |
| Numerology.DashesOfExample | api/verify-payment.js:139 | `1990-05-15` loses its dashes as `19900515` |
| Numerology.YearDigits | api/verify-payment.js:140 | `1990` sums to 19 |
| Numerology.DayDigits | api/verify-payment.js:140 | `0515` sums to 11 |
| Numerology.DigitsOfExample | api/verify-payment.js:140 | `19900515` sums to 30 |
| Numerology.LifePathExample | api/verify-payment.js:138-145 | `1990-05-15` sums to 30 and has life path 3 |
| VerifyPayment.ExpectedSignature | api/verify-payment.js:33-37 | the expected signature is 64 lower-case hex digits |
| VerifyPayment.ZodiacOf | api/verify-payment.js:105-108 | an invalid birth date gets Capricorn, a valid one the table sign of its month and day |
| VerifyPayment.GenerateReading | api/verify-payment.js:148-256 | no result without an API key or a birth date; with both, a result exactly when the generator's text is non-empty; a result carries the sign of the calendar date, the life path of the birth date and the generator's text, with a proper life-path number |
| VerifyPayment.Handle | api/verify-payment.js:10-101 | OPTIONS iff 200 empty; 405 iff another non-POST; 500 unconfigured iff POST without a key secret, and every other 500 is `Failed` (missing body, user data, reading or host); 400 iff the signature differs from the HMAC; 200 with the reading URL iff POST, key secret, matching signature, user data, a generated reading and a host, echoing payment id and name |
| VerifyPayment.RejectedBeforeGeneration | api/verify-payment.js:39-49 | a bad signature is answered 400 whatever the generator would do |
| VerifyPayment.VerifiedUrlCarriesReading | api/verify-payment.js:59-84 | the reading URL's payload decodes to the record built from the client's fields and the generated reading |
| VerifyPayment.ReadingDataCopies | api/verify-payment.js:59-72 | the record copies the seven client fields verbatim and takes sign, life path and text from the generation |
| VerifyPayment.ReadingUrlShape | api/verify-payment.js:82-84 | the reading URL is origin + `/api/reading?r=` + payload, and its query reads back as the single parameter `r` |
| VerifyPayment.UrlSafeIsPlain | api/verify-payment.js:75-79 | a URL-safe payload holds no query syntax |
| VerifyPayment.ReadingQuery | api/verify-payment.js:84 | the one-parameter query is `r=` + payload and reads back |
| VerifyPayment.ReadingUrlText | api/verify-payment.js:84 | the reading URL as text |
| VerifyPayment.NoReadingIsServerError | api/verify-payment.js:49-56 | a correctly signed request whose generation yields nothing is a 500 |
| Reading.DecodeReading | api/reading.js:3-11 | with the strict decoder, a payload of length 1 modulo 4 decodes to nothing |
| Reading.PdfLines | api/reading.js:139 | the PDF script gets at least one part |
| Reading.Handle | api/reading.js:14-33 | for a typed record: 400 with the no-reading page iff `r` is falsy; else 400 iff decoding fails or the reading is falsy; 200 gives the PDF page for `format=pdf`, else the HTML page, each with its rewritten text |
| Reading.EncodedReadingOpens | api/reading.js:14-33 | a payload built by the payment handler opens with status 200 and shows the encoded record, in either format |
| Reading.EncodedNonEmpty | api/reading.js:19 | a payload of non-empty JSON is non-empty, so it passes the `!r` check |
| Reading.HtmlHasNoNewline | api/reading.js:204-208 | no newline survives the HTML rewrite |
| Reading.HtmlParagraphs | api/reading.js:204-208 | without headings the HTML text is the blank-line paragraphs, each with its newlines as `<br>`, joined by `</p><p>` |
| Reading.HtmlHeading | api/reading.js:206 | a heading `**x**` before plain text becomes the heading div |
| Reading.PdfHasNoNewline | api/reading.js:36-38 | no newline survives the PDF rewrite |
| Reading.PdfLinesPlain | api/reading.js:139 | for text with neither `#` nor `*`, the PDF script gets one part per line of the reading |
| Reading.PdfMarkerCollision | api/reading.js:36-38 | the one-line reading `**NEWLINE**` reaches the PDF script as the two parts `###TITLE` and `ENDTITLE###` |
| Reading.CollisionOneLine | api/reading.js:139 | `**NEWLINE**` is one line of the reading |
| Reading.CollisionTwoParts | api/reading.js:139 | `**NEWLINE**` splits into two PDF parts |
| Reading.CollisionText | api/reading.js:37-38 | a one-line heading becomes title open + word + title close |
| Reading.CollisionSplit | api/reading.js:139 | the marker between `###TITLE` and `ENDTITLE###` splits them apart |
| Reading.NoMarkerInTitle | api/reading.js:139 | the line marker does not start in the first eight characters of that text |
| Reading.SplitNoChar | api/reading.js:139 | a string without the separator's first character is one part |
| VerifyRequest.BuildRecord | api/verify-request.js:49-58 | name, place and questions are prefixes cut at 50, 100 and 300; birth date and time copied; language, gender and questions defaulted; the timestamp is the clock |
| VerifyRequest.SignData | api/verify-request.js:5-9 | the tag is 16 lower-case hex digits |
| VerifyRequest.Handle | api/verify-request.js:27-105 | OPTIONS iff 200 empty; 405 iff another non-POST; 400 iff a body lacks a required field; a link iff POST, a complete body and a host |
| VerifyRequest.ApprovalUrlCarriesRecord | api/verify-request.js:61-69 | the approval URL is origin + `/api/approve?d=…&sig=…`; its query reads back as exactly `d` and `sig`, and `d` decodes to the record |
| VerifyRequest.CreatedUrl | api/verify-request.js:61-69 | the link is the approval URL of the encoded record and its tag |
| VerifyRequest.ApprovalUrlText | api/verify-request.js:69 | the approval URL as text |
| VerifyRequest.PlainTokens | api/verify-request.js:8-17 | the URL-safe payload and the hex tag hold no query syntax |
| VerifyRequest.ApprovalQuery | api/verify-request.js:69 | the query `d=…&sig=…` reads back as the two parameters |
| VerifyRequest.SecretOnlyInTag | api/verify-request.js:46-69 | a request that gets a link under one admin secret gets one under any other; the two links agree up to and including `&sig=` and have the same length, so they differ only in the 16-digit tag |
| VerifyRequest.UrlIsPrefixAndTag | api/verify-request.js:69 | the approval URL is origin + `/api/approve?d=` + payload + `&sig=`, followed by the 16-digit tag |
| Approve.Decision | api/approve.js:132-181 | a decision exists exactly for `approve` and `reject`, and is never pending |
| Approve.SetStatus | api/approve.js:133-134 | the same ids; the addressed entry gets the new status with its user data; all others are untouched |
| Approve.Handle | api/approve.js:16-355 | OPTIONS gives 200 and leaves the store alone; the store changes only for a non-OPTIONS request with the right secret, a known id, a host and a decision |
| Approve.WrongSecretFirst | api/approve.js:18-23 | a wrong or missing secret is 403 before any other check, even without an id, and the store is unchanged |
| Approve.SecretGuard | api/approve.js:19-22 | an absent or empty secret is always 403; without a configured secret, `celestial2024` gets past the guard |
| Approve.IdGuards | api/approve.js:57-94 | with the right secret, a missing id is 400 and an unknown id is 404, and the store is unchanged |
| Approve.DecisionSetsStatus | api/approve.js:132-183 | an authorised approve or reject on a known id answers 200 and sets exactly that entry's status, keeping its user data |
| Approve.OnlyAddressedStatusChanges | api/approve.js:133-181 | the ids stay the same, every other entry is untouched, and no user data changes |
| Approve.Idempotent | api/approve.js:132-181 | repeating a request leaves the store as one application did |
| Approve.ViewShowsLinksWhilePending | api/approve.js:216-351 | any other action changes nothing and shows the entry; the approve/reject links appear exactly while it is pending and repeat the admin secret |
| Flow.ApprovalLinkRefused | api/approve.js:18-22 | the link verify-request builds reads back as only `d` and `sig`, so the approval handler answers it 403 and leaves the store alone, whatever the secrets |
| UpiPayment.Sanitize | api/payment.js:39 | the sanitised name is no longer than the name |
| UpiPayment.SanitizeKeepsExactlyAllowed | api/payment.js:39 | only `[a-zA-Z0-9 ]` characters remain, a name made only of them is unchanged, and a name with any other character comes out strictly shorter |
| UpiPayment.SanitizeOne | api/payment.js:39 | a single allowed character is kept and a single disallowed one is deleted |
| UpiPayment.SanitizeConcat | api/payment.js:39 | sanitising works piecewise |
| UpiPayment.SanitizeIdempotent | api/payment.js:39 | sanitising twice is sanitising once |
| UpiPayment.SanitizeDrops | api/payment.js:39 | a character outside the class never reaches the query |
| UpiPayment.TxnRef | api/payment.js:28 | the reference starts with `CO` and has at least one digit |
| UpiPayment.TxnRefReadsBack | api/payment.js:28 | the reference after `CO` reads back as the timestamp in base 36 |
| UpiPayment.UpiParams | api/payment.js:37-42 | the query has five parameters |
| UpiPayment.Handle | api/payment.js:11-75 | OPTIONS iff 200 empty; 405 iff another non-GET; 500 iff GET with a missing, empty or `@`-less UPI id; a 200 reply carries the configured UPI id, the formatted amount, the name with its default and `TxnRef` of the clock |
| UpiPayment.SharedQuery | api/payment.js:44-73 | every app URL is its scheme + the one query; `upi` and `bhim` coincide; the raw query is built from the configured UPI id, name and amount; the reply carries those and the clock's reference; the page shows the unsanitised name with its default |
| UpiPayment.UpiParamsPlain | api/payment.js:37-42 | with a plain id and amount every key and value is plain |
| UpiPayment.UpiQueryReadsBack | api/payment.js:37-44 | the query reads back as pa, pn (sanitised), am, cu = INR, tn = the note, in that order |
| UpiLinks.LinkParams | api/Payment.js:24-31 | the query has six parameters |
| UpiLinks.Handle | api/Payment.js:6-54 | 200 empty iff OPTIONS; 500 iff any other method with a missing or empty UPI id; the shown id is the masked id |
| UpiLinks.LineEnd | api/Payment.js:52 | `.*` reaches up to the first line terminator or the end |
| UpiLinks.LastAt | api/Payment.js:52 | the greedy `.*` gives back to the last `@` before the line end, if any |
| UpiLinks.MatchFrom | api/Payment.js:52 | a match starts at or after the given position and has an `@` at least three characters on |
| UpiLinks.Mask | api/Payment.js:52 | an id with no `@` at index 3 or later is shown unchanged; the mask adds at most three characters, keeps the first three and never loses the `@` |
| UpiLinks.MaskOneLine | api/Payment.js:52 | on a one-line id whose last `@` is at index 3 or later, the mask is three characters, `***`, and the suffix from that `@` |
| UpiLinks.MaskKeepsShortIds | api/Payment.js:52 | an id without an `@` at index 3 or later is shown unchanged |
| UpiLinks.NoMatchFrom | api/Payment.js:52 | such an id has no match from any position |
| UpiLinks.TxnIdStartsWithTime | api/Payment.js:21 | the transaction id starts with `TXN` and the decimal timestamp, which reads back |
| UpiLinks.SharedQuery | api/Payment.js:33-48 | the four app URLs carry the one query of id, defaulted name and amount, INR, the note and the transaction id |
| UpiLinks.LinkQueryReadsBack | api/Payment.js:24-33 | with plain values the query reads back as pa, pn, am, cu, tn, tr in that order |
| CreateOrder.Credential | api/create-order.js:41 | the credential is padded standard base64: a multiple of four characters from the alphabet and `=` |
| CreateOrder.Handle | api/create-order.js:10-76 | OPTIONS iff 200 empty; 405 iff another non-POST; 500 unconfigured iff a key is missing; a request is sent iff POST, both keys and a body; success iff the gateway answers OK |
| CreateOrder.UnconfiguredSendsNothing | api/create-order.js:19-24 | without both keys the answer is 500 and nothing is sent, whatever the gateway |
| CreateOrder.OrderSent | api/create-order.js:30-50 | the order goes to the orders endpoint with the Basic credential: amount in paise, INR, an `order_` receipt reading back as the timestamp, and the notes |
| CreateOrder.RupeesToClientPaiseToGateway | api/create-order.js:58-68 | the client gets the amount in rupees (the order carried 100 times it), INR, the key id, the gateway's order id and the name |
| CreateOrder.CredentialDecodes | api/create-order.js:41 | the credential decodes back to `keyId:keySecret` |
| CreateOrder.KeyIdBeforeColon | api/create-order.js:41 | with no colon in the key id, the text before the first colon is the key id |

## Left out

- I/O is not modelled: the response headers (CORS, cache), HTML and CSS templates, error-page texts and error messages. Replies are datatypes that name the status and the data.
- The jsPDF layout script of the PDF page (api/reading.js:67-199) is not modelled. Its per-line heading handling (`replace('###TITLE###', '')`, `trim`) and its text metrics are part of that script.
- The quote escaping of the text embedded in the PDF page script is not modelled (`reading.replace(/"/g, '\\"')` and the `"`-stripping of other fields). A backslash in the reading is not escaped there either.
- The WhatsApp message and `wa.me` URL of api/verify-request.js:71-88 are not modelled: they only format the record for display.
- The chat-completion call of `generateReading` is the `Generator` parameter: prompt text, model, and HTTP and JSON failures (api/verify-payment.js:158-261). The model keeps only its outcome: text, or none.
- HMAC-SHA256 is an uninterpreted `Mac` parameter; only `digest('hex')` and the 16-digit truncation are modelled.
- `JSON.stringify`/`JSON.parse` are an opaque `Codec` pair. Round trips assume the `Faithful` predicate (parse undoes stringify).
- The payment gateway's HTTP round trip in api/create-order.js:43-56 is the `Gateway` parameter.
- The clock (`Date.now()`, `new Date().toISOString()`) is not modelled: it arrives as a parameter.
- `new Date(birthDate)` with local `getMonth`/`getDate` is the `Calendar` parameter. `Zodiac` takes the month and day as integers.
- `Math.random().toString(36).substr(2, 9)` in api/Payment.js:21 is the `suffix` parameter.
- `parseFloat(...).toFixed(2)` (api/payment.js:21) and `parseInt` (api/create-order.js:17) are not modelled: the formatted amount, or the integer amount, is given. A NaN amount is not modelled.
- Percent-encoding by `URLSearchParams` (including space as `+`) and `encodeURIComponent` (the QR-code URL of api/Payment.js:36) is not modelled. Queries are ordered `key=value` lists joined by `&`.
- UpiPayment.UpiQueryReadsBack: requires the UPI id and amount to hold no `&` or `=`, because percent-encoding is not modelled.
- UpiLinks.LinkQueryReadsBack: requires plain values, for the same reason.
- VerifyRequest.ApprovalUrlCarriesRecord: reads the query back only because the payload and tag are plain by construction. Query values with syntax characters are not modelled.
- Reading.PdfLinesPlain: requires text with no `#` and no `*`, because the one-part-per-line property fails otherwise. Reading.PdfMarkerCollision shows a heading `**NEWLINE**` that splits into two parts.
- Base64.UrlDecode: takes `Buffer.from(s, 'base64')` as the strict RFC 4648 decoder. Node's decoder drops a dangling sixth-bit group instead, so a payload of length 1 modulo 4 (for example a valid payload with one `A` appended, when the valid one has a length divisible by 4) decodes in the source but not in the model.
- Base64.OneExtraCharFails: is a fact about the strict decoder only. Node decodes the valid prefix of such a payload.
- Records.DecodePayload: rejects a payload of length 1 modulo 4 only because the decoder is strict. In the source such a payload can open, so `valid + "A"` renders 200 there and 400 in the model.
- Reading.DecodeReading: inherits the strict decoder's rejection of length 1 modulo 4, where api/reading.js:7 would decode the valid prefix.
- Reading.Handle: the record is typed, so the `Codec` parser yields None for JSON of any other shape and the model answers 400. The source behaves differently in three ways. A truthy non-string `reading` (for example `{"reading":5}`) throws at `data.reading.replace` (api/reading.js:36, 205) and gives 500. A truthy non-string `name` with `format=pdf` throws at api/reading.js:69 and gives 500. A reading with a field of another shape, such as `{"reading":"x","zodiac":"Leo"}` with a string where an object is expected, renders 200. The contract's "status is 200 or 400" holds only for the typed model.
- Node's `Buffer.from(s, 'base64')` is lenient: it skips characters outside the alphabet and stops at `=`. `Base64.UrlDecode` is the strict RFC 4648 decoder, so some malformed payloads the lenient decoder accepts decode to nothing in the model.
- `toString('utf8')` replaces ill-formed sequences with U+FFFD. `Utf8.Decode` returns nothing instead, and `Reading.Handle` answers 400 for such payloads.
- Strings are sequences of Unicode scalar values, not UTF-16 code units. `substring` lengths and `.{3}` counts differ from JavaScript for characters beyond U+FFFF.
- `global.pendingVerifications` is a value threaded through `Approve.Handle`. Concurrent and cross-instance behaviour of the process-global map is not modelled, and none of the modelled handlers adds a new entry to it.
- `req.query` with a repeated key (an array in Node) is not modelled. `Web.Lookup` takes the first occurrence.
- `api/health.js` only reports which environment variables are set, so it is not part of this model.
