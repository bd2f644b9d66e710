# ncbi-oauth core, modelled in Dafny

This project models three parts of the ncbi-oauth C++ library and proves
properties about them.

- **The JSON reader and writer** that the unit tests in
  `ncbi-oauth-test/ncbi-json-ut.cpp` exercise:
  - `JSONValue::test_parse`, `JSONObject::make`, `JSONArray::parse` and
    `JSONArray::test_parse`, and `toJSON`.
  - `JsonGrammar` is the reference definition. It is a set of functions
    over byte positions, each returning the value read and the position
    after it, or an error naming the position.
  - `JsonParser` holds the imperative parser. Its loops are methods, each
    proved equal to the grammar function it implements.
  - `JsonRoundTrip` proves that what `toJSON` writes reads back as the same
    value.
  - `JsonStability` proves what the reader builds: numbers, arrays and
    objects of the kind their first byte announces, always a value the
    library can represent. So re-parsing the rendering of any parsed
    document gives the same value.
  - `JsonExamples` restates every case of the unit-test table: accepted
    inputs with their renderings, and rejected inputs with the error.
- **The JSON Web Algorithms registry** (`inc/ncbi/jwa.hpp`, RFC 7518):
  - key holders bound to an algorithm, a key name and key material;
  - signers and verifiers made from them;
  - `JWAFactory`, which maps algorithm names to signer and verifier
    factories and keeps the set of names accepted for signing.
- **JSON Web Tokens** (`inc/ncbi/jwt.hpp`, RFC 7519):
  - the `JWT` claims set, with its registered-claim setters and
    `addClaim`/`getClaim`;
  - `JWTFactory`, with its settings, keys and the identifier sequence;
  - the JWS compact serialization (section 7.1 of RFC 7515) that `sign`
    emits and `decode` reads back. It uses base64url without padding
    (section 5 of RFC 4648).

Text is bytes throughout (`Text.Bytes`, a sequence of characters below
256). Only the three files above are part of this model. `json.cpp`,
`jwa.cpp` and `jwt.cpp` are not:
- the JSON model follows the behaviour the unit tests fix;
- the registry and claims models follow the declarations in the headers
  and the RFCs those headers name.

## Model

| member | source | states |
|---|---|---|
| Text.DecimalRoundTrip | inc/ncbi/jwt.hpp:110 | the decimal numeral used as an identifier reads back as the number it was made from |
| Text.DecimalInjective | inc/ncbi/jwt.hpp:110 | different counter values give different identifiers |
| Text.IndexOf | inc/ncbi/jwt.hpp:66 | the position of the first occurrence of a byte: it holds that byte and none occurs before it |
| JsonValues.Get | inc/ncbi/jwt.hpp:56 | a member lookup finds a value exactly when the object has a member of that name |
| JsonValues.GetPutSame | inc/ncbi/jwt.hpp:55-56 | after a member is set, looking it up gives the value set |
| JsonValues.GetPutOther | inc/ncbi/jwt.hpp:55-56 | setting one member leaves the lookup of every other name unchanged |
| JsonValues.PutShape | inc/ncbi/jwt.hpp:55 | setting a new name appends one member; setting an existing name keeps the length; the names gain exactly that name |
| JsonValues.PutInPlace | inc/ncbi/jwt.hpp:55 | setting a member keeps every member at its position with its name, leaves members of other names as they were, and puts a new name at the end |
| JsonValues.PutKeepsDistinct | inc/ncbi/jwt.hpp:55 | setting a member never creates two members with one name |
| JsonValues.PutKeepsValid | inc/ncbi/jwt.hpp:55 | setting a representable value keeps the object representable |
| JsonValues.EscapePlain | ncbi-oauth-test/ncbi-json-ut.cpp:197-208 | `toJSON` writes a string with no quote, backslash or control byte unchanged between quotes |
| JsonValues.ToJsonDelimited | ncbi-oauth-test/ncbi-json-ut.cpp:107 | `toJSON` writes objects between braces, arrays between brackets, strings between quotes, and integers with a minus sign exactly when negative |
| JsonGrammar.SkipWhitespace | ncbi-oauth-test/ncbi-json-ut.cpp:66 | whitespace skipping moves forward and stops at the end of the text or at a byte that is not whitespace |
| JsonGrammar.DigitsRun | ncbi-oauth-test/ncbi-json-ut.cpp:229-245 | the digits scanned for a number are all decimal digits |
| JsonGrammar.ParseString | ncbi-oauth-test/ncbi-json-ut.cpp:197-208 | a string read ends at least two bytes later (both quotes) and inside the text |
| JsonGrammar.ParseValue | ncbi-oauth-test/ncbi-json-ut.cpp:71 | a value read consumes at least one byte and ends inside the text |
| JsonGrammar.ParseDocument | ncbi-oauth-test/ncbi-json-ut.cpp:48 | `test_parse` succeeds exactly when a value reads and, with `consume_all`, only whitespace follows it; it returns that value, and a value that fails to read gives its error |
| JsonGrammar.ConsumeAllStricter | ncbi-oauth-test/ncbi-json-ut.cpp:71 | requiring the whole input accepts fewer documents and never changes the value of one it accepts |
| JsonParser.SkipWhitespace | ncbi-oauth-test/ncbi-json-ut.cpp:66 | the loop stops where the grammar's whitespace run ends |
| JsonParser.DigitsEnd | ncbi-oauth-test/ncbi-json-ut.cpp:229-245 | the loop stops where the grammar's digit run ends |
| JsonParser.DecimalOf | ncbi-oauth-test/ncbi-json-ut.cpp:229-245 | the accumulated number is the decimal value of the digits |
| JsonParser.ParseString | ncbi-oauth-test/ncbi-json-ut.cpp:197-208 | the string loop, escapes included, gives the grammar's result or error |
| JsonParser.FractionEnd | ncbi-oauth-test/ncbi-json-ut.cpp:252-260 | the fraction scan ends where the grammar's does |
| JsonParser.ExponentEnd | ncbi-oauth-test/ncbi-json-ut.cpp:262-290 | the exponent scan ends where the grammar's does; a bare `E` is not consumed |
| JsonParser.ParseNumber | ncbi-oauth-test/ncbi-json-ut.cpp:229-290 | reading a number gives the grammar's integer, float or error |
| JsonParser.ParseValue | ncbi-oauth-test/ncbi-json-ut.cpp:71 | reading a value gives the grammar's result |
| JsonParser.ValueAt | ncbi-oauth-test/ncbi-json-ut.cpp:295-362 | dispatch on the first byte agrees with the grammar, errors included |
| JsonParser.ParseArray | ncbi-oauth-test/ncbi-json-ut.cpp:66 | the element loop gives the grammar's array and end position, or its error |
| JsonParser.ElementStep | ncbi-oauth-test/ncbi-json-ut.cpp:180-186 | one element step either continues the grammar's element list or finishes with its result |
| JsonParser.ParseObject | ncbi-oauth-test/ncbi-json-ut.cpp:61 | the member loop gives the grammar's object and end position, or its error |
| JsonParser.MemberStep | ncbi-oauth-test/ncbi-json-ut.cpp:145-151 | one member step either continues the grammar's member list or finishes with its result |
| JsonParser.MemberValueStep | ncbi-oauth-test/ncbi-json-ut.cpp:145-151 | the colon and value of one member agree with the grammar |
| JsonParser.Finish | ncbi-oauth-test/ncbi-json-ut.cpp:153-155 | with the whole input required, bytes after the value are `TrailingBytes` |
| JsonParser.TestParse | ncbi-oauth-test/ncbi-json-ut.cpp:48 | `JSONValue::test_parse` equals the grammar's document reading |
| JsonParser.TestParseArray | ncbi-oauth-test/ncbi-json-ut.cpp:45 | `JSONArray::test_parse` equals the grammar's array document reading |
| JsonParser.MakeObject | ncbi-oauth-test/ncbi-json-ut.cpp:42 | `JSONObject::make` equals the grammar's object document reading |
| JsonRoundTrip.ValueRoundTrip | ncbi-oauth-test/ncbi-json-ut.cpp:107 | the rendering of any representable value, embedded in any text, reads back as that value and ends where the rendering ends |
| JsonRoundTrip.StringRoundTrip | ncbi-oauth-test/ncbi-json-ut.cpp:197-208 | every escaped string reads back as the original bytes |
| JsonRoundTrip.IntegerRoundTrip | ncbi-oauth-test/ncbi-json-ut.cpp:229-245 | every 64-bit integer's numeral reads back as that integer |
| JsonRoundTrip.FloatRoundTrip | ncbi-oauth-test/ncbi-json-ut.cpp:252-290 | a float lexeme reads back as itself |
| JsonRoundTrip.DocumentRoundTrip | ncbi-oauth-test/ncbi-json-ut.cpp:80-107 | `test_parse` of `toJSON(v)` is `v`, with or without consuming the whole input |
| JsonRoundTrip.ObjectDocumentRoundTrip | ncbi-oauth-test/ncbi-json-ut.cpp:87-107 | `JSONObject::make` of a rendered object is that object |
| JsonRoundTrip.ArrayDocumentRoundTrip | ncbi-oauth-test/ncbi-json-ut.cpp:44-45 | `JSONArray::test_parse` of a rendered array is that array |
| JsonStability.NumberRead | ncbi-oauth-test/ncbi-json-ut.cpp:229-290 | a number read is a 64-bit integer or a float holding exactly the bytes it spans; a refusal is a missing digit or an integer out of range |
| JsonStability.NumberValid | ncbi-oauth-test/ncbi-json-ut.cpp:252-290 | a float read holds a well-formed number lexeme |
| JsonStability.ArrayRead | ncbi-oauth-test/ncbi-json-ut.cpp:66 | `JSONArray::parse` yields an array that opened with `[` and ends at its `]` |
| JsonStability.ObjectRead | ncbi-oauth-test/ncbi-json-ut.cpp:61 | `JSONObject::make` yields an object that opened with `{` and ends at its `}` |
| JsonStability.ParsedValid | ncbi-oauth-test/ncbi-json-ut.cpp:71 | every document `test_parse` accepts is a representable value: 64-bit integers, number lexemes, distinct member names |
| JsonStability.ParsedObjectValid | ncbi-oauth-test/ncbi-json-ut.cpp:61 | every object `JSONObject::make` accepts is representable |
| JsonStability.ReparseStable | ncbi-oauth-test/ncbi-json-ut.cpp:80-107 | the `toJSON` rendering of any accepted document parses back, with or without `consume_all`, to the same value |
| JsonExamples.EmptyObject | ncbi-oauth-test/ncbi-json-ut.cpp:119-122 | `{}` reads as the empty object and is written back as `{}` |
| JsonExamples.EmptyNameEmptyArray | ncbi-oauth-test/ncbi-json-ut.cpp:123-126 | `{"":[]}` reads as one member with an empty name and array, and is written back unchanged |
| JsonExamples.NameValueObject | ncbi-oauth-test/ncbi-json-ut.cpp:127-130 | `{"name":"value"}` reads as one string member and is written back unchanged |
| JsonExamples.ObjectRejects | ncbi-oauth-test/ncbi-json-ut.cpp:133-144 | empty input and `{` end too early; `}` lacks the opening brace |
| JsonExamples.ObjectMissingColon | ncbi-oauth-test/ncbi-json-ut.cpp:145-148 | a member without a colon is refused at the byte where the colon was due |
| JsonExamples.ObjectMissingRightBrace | ncbi-oauth-test/ncbi-json-ut.cpp:149-152 | an unclosed object is refused where the brace was due |
| JsonExamples.ObjectTrailingBytes | ncbi-oauth-test/ncbi-json-ut.cpp:153-156 | bytes after a complete object are refused |
| JsonExamples.EmptyArray | ncbi-oauth-test/ncbi-json-ut.cpp:162-165 | `[]` reads as the empty array, ending at position 2, and is written back as `[]` |
| JsonExamples.NameValueArray | ncbi-oauth-test/ncbi-json-ut.cpp:166-169 | `["name","value"]` reads as two strings and is written back unchanged |
| JsonExamples.ArrayRejects | ncbi-oauth-test/ncbi-json-ut.cpp:172-183 | empty input and `[` end too early; `]` lacks the opening bracket |
| JsonExamples.ArrayMissingRightBracket | ncbi-oauth-test/ncbi-json-ut.cpp:184-187 | an unclosed array is refused where the bracket was due |
| JsonExamples.ArrayTrailingBytes | ncbi-oauth-test/ncbi-json-ut.cpp:188-191 | bytes after a complete array are refused |
| JsonExamples.StringEmpty | ncbi-oauth-test/ncbi-json-ut.cpp:197-200 | `""` reads as the empty string and is written back unchanged |
| JsonExamples.StringOne | ncbi-oauth-test/ncbi-json-ut.cpp:201-204 | `"a"` reads as that string and is written back unchanged |
| JsonExamples.StringThree | ncbi-oauth-test/ncbi-json-ut.cpp:205-208 | `"abc"` reads as that string and is written back unchanged |
| JsonExamples.Literals | ncbi-oauth-test/ncbi-json-ut.cpp:214-221 | `true` and `false` read as booleans and are written back unchanged |
| JsonExamples.IntegerZero | ncbi-oauth-test/ncbi-json-ut.cpp:229-232 | `0` reads as zero and is written back unchanged |
| JsonExamples.IntegerPositive | ncbi-oauth-test/ncbi-json-ut.cpp:233-236 | `12345` reads as that integer and is written back unchanged |
| JsonExamples.MinusZero | ncbi-oauth-test/ncbi-json-ut.cpp:237-239 | `-0` reads as zero, which is written as `0` |
| JsonExamples.IntegerMinusOne | ncbi-oauth-test/ncbi-json-ut.cpp:240 | `-1` reads as minus one and is written back unchanged |
| JsonExamples.IntegerNegative | ncbi-oauth-test/ncbi-json-ut.cpp:242-245 | `-12345` reads as that integer and is written back unchanged |
| JsonExamples.FloatZeroFraction | ncbi-oauth-test/ncbi-json-ut.cpp:254 | `0.0` reads as a float and is written back unchanged |
| JsonExamples.FloatFraction | ncbi-oauth-test/ncbi-json-ut.cpp:255 | `1.2` reads as a float and is written back unchanged |
| JsonExamples.FloatPrecision | ncbi-oauth-test/ncbi-json-ut.cpp:257-260 | `1234.56789` reads as a float and is written back with every digit |
| JsonExamples.DotWithoutDigit | ncbi-oauth-test/ncbi-json-ut.cpp:262-269 | `1.` reads as the integer 1, ending before the `.`, when the whole input is not required; requiring it refuses the `.` as trailing bytes |
| JsonExamples.ZeroE | ncbi-oauth-test/ncbi-json-ut.cpp:262-269 | `0E` reads as the integer zero, ending before the `E`, and is written as `0` when the whole input is not required; requiring it refuses the `E` as trailing bytes |
| JsonExamples.FloatExponent | ncbi-oauth-test/ncbi-json-ut.cpp:270-274 | `0e0` and `0E0` read as floats |
| JsonExamples.FloatSignedExponent | ncbi-oauth-test/ncbi-json-ut.cpp:276-285 | exponents with `+` or `-` read as floats |
| JsonExamples.FloatFractionExponent | ncbi-oauth-test/ncbi-json-ut.cpp:287-290 | a fraction followed by an exponent reads as a float |
| JsonExamples.LiteralRejects | ncbi-oauth-test/ncbi-json-ut.cpp:295-302 | `a` is not a value; `n`, `t` and `f` are cut-short literals |
| JsonExamples.LiteralTrailingBytes | ncbi-oauth-test/ncbi-json-ut.cpp:303-306 | `nulll`, `truee` and `falsee` are refused for the bytes after the literal |
| JsonExamples.EscapeRejects | ncbi-oauth-test/ncbi-json-ut.cpp:307-318 | a lone quote is unterminated; a missing or unknown escape is refused |
| JsonExamples.ShortUnicodeEscape | ncbi-oauth-test/ncbi-json-ut.cpp:319-326 | a `\u` escape with fewer than four hex digits is refused |
| JsonExamples.BadUnicodeEscape | ncbi-oauth-test/ncbi-json-ut.cpp:327-330 | a `\u` escape with a non-hex digit is refused |
| JsonExamples.UnterminatedAfterEscape | ncbi-oauth-test/ncbi-json-ut.cpp:331-334 | a string that ends after a valid escape is unterminated |
| JsonExamples.StringTrailingBytes | ncbi-oauth-test/ncbi-json-ut.cpp:335-338 | bytes after a complete string are refused |
| JsonExamples.NumberRejects | ncbi-oauth-test/ncbi-json-ut.cpp:355-362 | a minus sign without a digit after it is refused |
| JsonExamples.IntegerDocument | ncbi-oauth-test/ncbi-json-ut.cpp:229-245 | every 64-bit integer's numeral is accepted as a whole document |
| JsonExamples.FloatDocument | ncbi-oauth-test/ncbi-json-ut.cpp:252-290 | every integer part, fraction and exponent lexeme is accepted as a float and written back unchanged |
| Base64Url.Symbol | inc/ncbi/jwt.hpp:87 | every six-bit value has a symbol of the URL-safe alphabet that reads back as that value |
| Base64Url.ValuesSpell | inc/ncbi/jwt.hpp:84-87 | reading back the symbols of a spelling gives its values |
| Base64Url.GroupSplit3 | inc/ncbi/jwt.hpp:84-87 | three bytes split into four six-bit values join back into the same bytes |
| Base64Url.Sextets | inc/ncbi/jwt.hpp:87 | the six-bit values of a byte text never leave one value over, are empty only for empty text, and have zero unused bits at the end |
| Base64Url.SextetsRoundTrip | inc/ncbi/jwt.hpp:84-87 | joining the six-bit values of any byte text gives the text back |
| Base64Url.Decode | inc/ncbi/jwt.hpp:84 | decoding succeeds exactly for texts of the alphabet whose length does not leave one symbol over and whose last symbol carries no stray low bits; otherwise it fails with `BadLength` when one symbol is left over, else `BadSymbol` when a byte is outside the alphabet, else `NonCanonical` for stray bits |
| Base64Url.DecodeEncode | inc/ncbi/jwt.hpp:84-87 | decoding an encoding gives the original bytes |
| Base64Url.Encode | inc/ncbi/jwt.hpp:87 | an encoding has one symbol of the URL-safe alphabet per six-bit value |
| Base64Url.EncodeLength | inc/ncbi/jwt.hpp:87 | `n` bytes encode to `(4n + 2) / 3` symbols, with no padding |
| Base64Url.EncodeDecode | inc/ncbi/jwt.hpp:84-87 | whatever decodes is the encoding of what it decodes to |
| Base64Url.DecodeInjective | inc/ncbi/jwt.hpp:84 | two texts that decode to the same bytes are the same text |
| Base64Url.EncodeEmpty | inc/ncbi/jwt.hpp:87 | only the empty text encodes to nothing |
| Base64Url.EncodeHasNoDot | inc/ncbi/jwt.hpp:87 | no encoding contains the `.` that separates token segments |
| Jwa.Signer.Clone | inc/ncbi/jwa.hpp:61 | a clone keeps the algorithm, name and key and signs every input alike |
| Jwa.Verifier.Verify | inc/ncbi/jwa.hpp:73 | verification passes exactly when the algorithm accepts the signature, and otherwise fails with `SignatureInvalid` |
| Jwa.Verifier.Clone | inc/ncbi/jwa.hpp:74 | a clone keeps the algorithm, name and key and verifies every input alike |
| Jwa.SignThenVerify | inc/ncbi/jwa.hpp:60-73 | a verifier paired with a signer passes every signature that signer makes |
| Jwa.OtherInputFails | inc/ncbi/jwa.hpp:60-73 | a verifier sound for a binding signer fails the signature made for one input when it is presented with any other input, with `SignatureInvalid` |
| Jwa.OtherSignatureFails | inc/ncbi/jwa.hpp:60-73 | a verifier sound for a signer fails every signature other than the one that signer makes for the same input, with `SignatureInvalid` |
| Jwa.JwaFactory.constructor | inc/ncbi/jwa.hpp:108 | a new registry has no factories and the given set of names accepted for signing |
| Jwa.JwaFactory.RegisterSignerFact | inc/ncbi/jwa.hpp:105 | installs or replaces the signer factory for one name; the verifier factories and the accepted names stay as they were |
| Jwa.JwaFactory.RegisterVerifierFact | inc/ncbi/jwa.hpp:106 | installs or replaces the verifier factory for one name; the signer factories and the accepted names stay as they were |
| Jwa.JwaFactory.MakeSigner | inc/ncbi/jwa.hpp:100-101 | succeeds exactly when the name has a signer factory and is accepted for signing; the signer reports the given algorithm, name and key and signs with that factory; otherwise it reports an unknown or a refused algorithm |
| Jwa.JwaFactory.MakeVerifier | inc/ncbi/jwa.hpp:102-103 | succeeds exactly when the name has a verifier factory; the verifier reports the given algorithm, name and key and accepts what that factory accepts |
| Jwa.RegisterThenMakeSigner | inc/ncbi/jwa.hpp:100-105 | after a signer factory is registered for an accepted name, `makeSigner` succeeds with that factory and every verifier lookup is as before |
| JwtClaims.CheckStringOrUri | inc/ncbi/jwt.hpp:66 | a value passes exactly when it has no `:` or a scheme (section 3.1 of RFC 3986) before its first `:` |
| JwtClaims.NoColonIsString | inc/ncbi/jwt.hpp:66 | a value without `:` is always accepted |
| JwtClaims.LeadingColonRefused | inc/ncbi/jwt.hpp:66 | a value starting with `:` is refused |
| JwtClaims.SchemeIsUri | inc/ncbi/jwt.hpp:66 | a scheme, a colon and anything after it is accepted |
| JwtClaims.WithAudience | inc/ncbi/jwt.hpp:50 | adding an audience fails exactly when `aud` holds something other than a string or an array |
| JwtClaims.AudiencesAccumulate | inc/ncbi/jwt.hpp:50 | adding `a` and then `b` gives `aud` the array `[a, b]` |
| JwtClaims.AudienceKeepsOthers | inc/ncbi/jwt.hpp:50 | adding an audience leaves every other claim unchanged |
| JwtClaims.PutOtherKeepsValid | inc/ncbi/jwt.hpp:55 | a claim whose name is not registered neither makes nor breaks the StringOrURI invariant |
| JwtClaims.PutOtherKeepsValidTime | inc/ncbi/jwt.hpp:51-52 | recording `exp` or `nbf` neither makes nor breaks the StringOrURI invariant |
| JwtClaims.SetStringOrUriKeepsValid | inc/ncbi/jwt.hpp:48-49 | setting `iss` or `sub` to a StringOrURI keeps the invariant |
| JwtClaims.WithAudienceKeepsValid | inc/ncbi/jwt.hpp:50 | on a valid claims set, adding a StringOrURI audience succeeds and keeps every audience a StringOrURI |
| JwtClaims.Jwt.constructor | inc/ncbi/jwt.hpp:68 | a claims set holds the payload it was made from |
| JwtClaims.Jwt.Copy | inc/ncbi/jwt.hpp:60 | a copy holds a payload equal to the original's |
| JwtClaims.Jwt.Assign | inc/ncbi/jwt.hpp:59 | after assignment the payload equals the other claims set's |
| JwtClaims.Jwt.SetIssuer | inc/ncbi/jwt.hpp:48 | a StringOrURI issuer is set as `iss`; any other value is refused and the payload is unchanged; the StringOrURI invariant is kept |
| JwtClaims.Jwt.SetSubject | inc/ncbi/jwt.hpp:49 | a StringOrURI subject is set as `sub`; any other value is refused and the payload is unchanged; the StringOrURI invariant is kept |
| JwtClaims.Jwt.AddAudience | inc/ncbi/jwt.hpp:50 | a StringOrURI audience accumulates into `aud`; a refused value or a foreign `aud` leaves the payload unchanged; on a valid claims set only the value check can fail, and the invariant is kept |
| JwtClaims.Jwt.SetDuration | inc/ncbi/jwt.hpp:51 | records the duration in seconds under `exp`, keeping the invariant |
| JwtClaims.Jwt.SetNotBefore | inc/ncbi/jwt.hpp:52 | records the not-before offset under `nbf`, keeping the invariant |
| JwtClaims.Jwt.AddClaim | inc/ncbi/jwt.hpp:55 | inserts a claim that is not registered, or replaces the value of one with that name; a registered name is refused with `RegisteredClaim` and the payload is unchanged; the StringOrURI invariant is kept |
| JwtClaims.Jwt.GetClaim | inc/ncbi/jwt.hpp:56 | finds a value exactly when the claim is present; otherwise fails with `ClaimNotFound` naming it |
| JwtClaims.AddThenGet | inc/ncbi/jwt.hpp:55-56 | on a claims set, `getClaim` after `addClaim` gives the added value for that name (what it gave before when the name is registered) and what it gave before for every other name |
| JwtClaims.CopyThenAddClaim | inc/ncbi/jwt.hpp:55-60 | a claim added to a copy leaves the original unchanged and gives the copy the original's claims plus the new one, unless its name is registered |
| JwtClaims.AddTwoAudiences | inc/ncbi/jwt.hpp:50 | two StringOrURI audiences added to a claims set without `aud` are both accepted and give `aud` the array of both, in order |
| JwtCodec.Segments | inc/ncbi/jwt.hpp:84 | a text always has at least one dot-separated segment |
| JwtCodec.SegmentsOfThree | inc/ncbi/jwt.hpp:84-87 | three dot-free pieces joined by dots split back into those pieces |
| JwtCodec.SplitToken | inc/ncbi/jwt.hpp:84 | a token splits exactly when it has three segments and none is empty; otherwise it is `MalformedToken` |
| JwtCodec.Header | inc/ncbi/jwt.hpp:87 | the header `sign` writes is a representable object naming the algorithm under `alg` and `JWT` under `typ` |
| JwtCodec.Token | inc/ncbi/jwt.hpp:87 | a signed token has exactly three segments: the encoded header, payload and signature over both |
| JwtCodec.DecodeObject | inc/ncbi/jwt.hpp:84 | a segment that is not base64url of a JSON object is `MalformedToken` |
| JwtCodec.DecodeSignature | inc/ncbi/jwt.hpp:84 | a signature segment decodes only when it is the encoding of what it decodes to; otherwise it is `MalformedToken` |
| JwtCodec.AlgorithmOf | inc/ncbi/jwt.hpp:84 | a header names an algorithm exactly when its `alg` is a string; otherwise it is `UnknownAlgorithm` |
| JwtCodec.CheckTimes | inc/ncbi/jwt.hpp:84 | a payload passes exactly when its `exp` and `nbf` are absent or integers, `now` is before `exp` and not before `nbf`; a non-integer time is `MalformedToken`, then expiry is reported before not-yet-valid |
| JwtCodec.ExpiredLater | inc/ncbi/jwt.hpp:84 | an expired token has an integer `exp` at or before `now` and stays expired at every later time |
| JwtCodec.EarlyBefore | inc/ncbi/jwt.hpp:84 | a token not yet valid has an integer `nbf` after `now` and is not valid at any earlier time |
| JwtCodec.Resolve | inc/ncbi/jwt.hpp:87 | the payload `sign` writes carries the identifier it minted under `jti`; its other claims are stated by `ResolveNamed`, `ResolveStamps`, `ExpiryFromOffset`, `NotBeforeFromOffset` and `ResolveKeepsClaims` |
| JwtCodec.AudienceValue | inc/ncbi/jwt.hpp:92 | one factory audience becomes a string, several become an array in the order added |
| JwtCodec.IdSequence.NewJti | inc/ncbi/jwt.hpp:110 | the identifier is the decimal numeral of the counter, which then moves on by one |
| JwtCodec.TwoJtis | inc/ncbi/jwt.hpp:110 | identifiers minted one after the other differ |
| JwtCodec.JwtFactory.constructor | inc/ncbi/jwt.hpp:104 | a new factory has no keys, no issuer, subject or audiences, and no duration or not-before; its settings are valid |
| JwtCodec.JwtFactory.Copy | inc/ncbi/jwt.hpp:101 | a copied factory has every key and setting of the original |
| JwtCodec.JwtFactory.Assign | inc/ncbi/jwt.hpp:100 | after assignment every key and setting is the other factory's |
| JwtCodec.JwtFactory.SetIssuer | inc/ncbi/jwt.hpp:90 | a StringOrURI issuer replaces the setting, a refused one leaves it; nothing else changes, and valid settings stay valid |
| JwtCodec.JwtFactory.SetSubject | inc/ncbi/jwt.hpp:91 | a StringOrURI subject replaces the setting, a refused one leaves it; nothing else changes, and valid settings stay valid |
| JwtCodec.JwtFactory.AddAudience | inc/ncbi/jwt.hpp:92 | a StringOrURI audience joins the end of the list, a refused one leaves it; nothing else changes, and valid settings stay valid |
| JwtCodec.JwtFactory.SetDuration | inc/ncbi/jwt.hpp:93 | sets the duration and nothing else |
| JwtCodec.JwtFactory.SetNotBefore | inc/ncbi/jwt.hpp:94 | sets the not-before offset and nothing else |
| JwtCodec.JwtFactory.SetSigningKeys | inc/ncbi/jwt.hpp:97 | sets both keys and no claim setting |
| JwtCodec.JwtFactory.Make | inc/ncbi/jwt.hpp:81 | `make` gives a new claims set with no claims, which satisfies the StringOrURI invariant |
| JwtCodec.JwtFactory.Sign | inc/ncbi/jwt.hpp:87 | consumes one identifier; without a signer for the algorithm and key it fails; otherwise it gives the header, the resolved payload and the signature over both, in compact form |
| JwtCodec.JwtFactory.Decode | inc/ncbi/jwt.hpp:84 | a payload is returned, and a time error is reported, only for a token whose signature the verifier accepted; the payload returned is a representable object with integer times, within them |
| JwtCodec.JwtFactory.SelectVerifier | inc/ncbi/jwt.hpp:84 | a verifier is found exactly when the header names as a string an algorithm with a verifier factory; it holds the verifying key; otherwise it is `UnknownAlgorithm` |
| JwtCodec.JwtFactory.DecodeParts | inc/ncbi/jwt.hpp:84 | the payload returned is the decoded payload segment, and only after the header decoded and the signature was accepted; nothing past a header or signature that fails to decode is trusted |
| JwtCodec.JwtFactory.AfterObjects | inc/ncbi/jwt.hpp:84 | with both objects decoded, an unknown algorithm is refused before the signature segment is read; a payload is returned only with an accepted signature and within its times |
| JwtCodec.JwtFactory.VerifyThenCheck | inc/ncbi/jwt.hpp:84 | a refused signature is `SignatureInvalid`; the time claims are checked only after the signature passes |
| JwtCodec.JwtFactory.DecodeJwt | inc/ncbi/jwt.hpp:84 | `decode` gives a new claims set exactly when decoding succeeds and the payload's `iss`, `sub` and audiences are StringOrURI values; the claims set satisfies the invariant; otherwise the decoding error, or `MalformedToken` for a payload that breaks the invariant |
| JwtProperties.ObjectJsonNotEmpty | inc/ncbi/jwt.hpp:87 | the header and payload segments are never empty |
| JwtProperties.SignedTokenSplits | inc/ncbi/jwt.hpp:84-87 | a token with a non-empty signature splits back into its three parts |
| JwtProperties.EmptySignatureRefused | inc/ncbi/jwt.hpp:84 | a token with an empty signature segment is `MalformedToken` |
| JwtProperties.UnknownAlgorithmRejected | inc/ncbi/jwt.hpp:84 | a token whose header names no algorithm with a verifier is `UnknownAlgorithm`, whatever its signature segment holds |
| JwtProperties.SignatureSegmentsDiffer | inc/ncbi/jwt.hpp:84 | two different signature segments never decode to the same signature |
| JwtProperties.ObjectSegment | inc/ncbi/jwt.hpp:84-87 | a representable object written as a segment decodes back to itself |
| JwtProperties.SignatureSegment | inc/ncbi/jwt.hpp:84-87 | a signature written as a segment decodes back to itself |
| JwtProperties.DecodeSigned | inc/ncbi/jwt.hpp:84-87 | a token signed by a signer paired with the verifier, with integer times and within them, decodes to its payload |
| JwtProperties.ForgedSignatureRejected | inc/ncbi/jwt.hpp:84 | a token whose signature the verifier refuses is `SignatureInvalid` and yields no claims |
| JwtProperties.TamperedPayloadRejected | inc/ncbi/jwt.hpp:84-87 | when the verifier is sound for the signer and the signer binds its input, a signed token whose payload segment is replaced by any other segment is refused: `MalformedToken` when the new segment is empty or is not an encoded JSON object, otherwise `SignatureInvalid`, whatever its times |
| JwtProperties.TamperedSignatureRejected | inc/ncbi/jwt.hpp:84-87 | when the verifier is sound for the signer, a signed token whose signature segment is replaced by any other decodable segment is refused: `SignatureInvalid`, or `MalformedToken` when the new segment is empty, whatever its times |
| JwtProperties.ExpiredTokenRejected | inc/ncbi/jwt.hpp:84 | an authentic token with integer times past its `exp` is `TokenExpired` |
| JwtProperties.ResolveNamed | inc/ncbi/jwt.hpp:90-92 | in the signed payload, `iss`, `sub` and `aud` are the claims set's own where it has them; otherwise `iss` and `sub` are the factory's when non-empty, and `aud` is the factory's one audience as a string or several as an array, and is absent when the factory has none |
| JwtProperties.ResolveClaimsValid | inc/ncbi/jwt.hpp:87 | signing a valid claims set with valid factory settings gives a payload whose `iss`, `sub` and audiences are StringOrURI values |
| JwtProperties.ResolveKeepsClaims | inc/ncbi/jwt.hpp:87 | signing keeps every claim of the claims set that is not a registered claim |
| JwtProperties.ResolveStamps | inc/ncbi/jwt.hpp:87 | the signed payload carries `iat` set to the signing time |
| JwtProperties.ResolveTimesTyped | inc/ncbi/jwt.hpp:87 | when the claims set's own `exp` and `nbf` are absent or integers, so are the signed payload's |
| JwtProperties.ExpiryFromOffset | inc/ncbi/jwt.hpp:51 | the signed payload's `exp` is the signing time plus the duration in effect |
| JwtProperties.ExpiryFromDuration | inc/ncbi/jwt.hpp:93 | with no duration in the claims set, `exp` is the signing time plus the factory's duration |
| JwtProperties.NotBeforeFromOffset | inc/ncbi/jwt.hpp:52 | the signed payload's `nbf` is the signing time plus the not-before offset in effect |
| JwtProperties.NotBeforeFromDefault | inc/ncbi/jwt.hpp:94 | with no not-before offset in the claims set, `nbf` is the signing time plus the factory's offset |
| JwtProperties.ResolveValid | inc/ncbi/jwt.hpp:87 | the signed payload is a representable JSON object when its times fit in 64 bits |
| JwtProperties.SignThenDecode | inc/ncbi/jwt.hpp:84-87 | what the factory signs, it decodes back to the signed payload while within the token's times |
| JwtProperties.SignAndDecode | inc/ncbi/jwt.hpp:84-87 | signing a valid claims set with valid factory settings and decoding the token gives a new valid claims set holding the payload, with `iat`, `jti` and `exp` resolved |

## Left out

- `json.cpp`, `jwa.cpp` and `jwt.cpp` are not part of this model. The JSON reader follows the behaviour the unit tests fix. The registry and claims follow the headers and the RFCs they name.
- Numbers: a float is kept as its lexeme, because floating-point conversion is not modelled. The model refuses an integer literal outside the signed 64-bit range (`IntegerOutOfRange`). This bound is the model's choice, because the reader's conversion in `json.cpp` is not part of this model.
- A `\uXXXX` escape is written as the UTF-8 of that code point alone. Surrogate pairs are not joined.
- Cryptography is an oracle. A signer factory carries a signing function and a verifier factory an acceptance predicate. No algorithm such as HMAC or RSA is modelled, and `Jwa.Pairs` states what a caller knows about a matching pair.
- `Jwa.SignerFact`: the signing function is given only the key and the data. `JWASignerFact::make` (`inc/ncbi/jwa.hpp:84-85`) also receives the key name, so an implementation whose signature depends on that name is not modelled. `Jwa.VerifierFact` is limited the same way.
- `Jwa.Pairs` states only that a verifier accepts its signer's signatures. `Jwa.Sound` states the converse, that it accepts nothing else. `Jwa.Binding` states that a signer's signatures tell its inputs apart. No concrete algorithm is modelled, so the tamper-detection properties assume these: `JwtProperties.TamperedSignatureRejected` assumes `Jwa.Sound`, and `JwtProperties.TamperedPayloadRejected` assumes `Jwa.Sound` and `Jwa.Binding`. Without `Jwa.Binding`, an oracle that signs every input alike accepts a token whose payload segment was replaced.
- `gJWAFactory` and `includeJWA_none`: the process-wide registry is an explicit `Jwa.JwaFactory` object, and linker inclusion has no counterpart.
- The header gives no way to fill `sign_accept`, so the set of names accepted for signing is a constructor parameter of `Jwa.JwaFactory`.
- Key holders, signers and verifiers are values. Pointer identity, ownership of returned raw pointers, virtual destructors and the distinct object a `clone` allocates are not modelled.
- `JWAKeyHolder::algorithm` and `name` are the `alg` and `name` fields of `Jwa.Signer` and `Jwa.Verifier`. Their datatypes have no setters, which captures that the holders are immutable.
- `JWTFactory::now` is a parameter of `Sign` and `Decode`, not the clock.
- `id_seq` is an `IdSequence` object shared by factories. Atomic access from several threads is not modelled. `newJTI` is modelled as the decimal numeral of the counter, and any other entropy the implementation might add is not.
- `JwtFactory`: the header does not say which algorithm a factory signs with. It is a constructor parameter, and it also serves as the key name passed to the registry.
- `JwtCodec.JwtFactory.Decode` verifies with the algorithm the token's header names and the factory's verifying key.
- `JwtCodec.Defaults`: `duration` and `not_before` are `Option` values instead of sentinel integers. An empty `iss` or `sub` means "not set".
- `JwtClaims.Jwt.SetDuration` and `SetNotBefore` record offsets under `exp` and `nbf`. `sign` turns them into times. The implementation may store them differently; the header only fixes the parameters.
- `JwtClaims.Jwt.AddClaim` refuses the seven registered names of section 4.1 of RFC 7519 (`RegisteredClaim`). The header says only that `addClaim` adds a claim. `jwt.cpp` is not part of this model, and the refusal is the model's reading of "user interface for managing claims" next to the registered-claim setters. It keeps the StringOrURI invariant `JwtClaims.Jwt.Valid`.
- `JwtCodec.JwtFactory.DecodeJwt` refuses a payload that breaks the StringOrURI invariant as `MalformedToken`. `jwt.cpp` is not part of this model, so which error the implementation reports there is not fixed. `JwtCodec.JwtFactory.Decode`, the payload-level function, does not check the invariant.
- The friend access of `JWTFactory` to the private `JWT` constructor has no counterpart in Dafny, so `JwtClaims.Jwt.constructor` is public.
- Time arithmetic is unbounded. 64-bit overflow of `now + duration` is not modelled, and `JwtProperties.ResolveValid` and `JwtProperties.SignThenDecode` require that the times fit (`TimesFit`).
- `JwtClaims.CheckStringOrUri` checks only the scheme of a value with a colon. The rest of the RFC 3986 URI grammar is not checked.
- `JwtProperties.SignThenDecode` and `JwtProperties.DecodeSigned` require that the signature is not empty. A signer that returns an empty signature yields a token that `decode` refuses (`JwtProperties.EmptySignatureRefused`).
- `JsonGrammar.ParseNumber` accepts leading zeros: `0123` reads as the integer 123. The comment at `ncbi-oauth-test/ncbi-json-ut.cpp:223-227` gives the grammar of section 6 of RFC 8259 (`digit1-9 digits`), but no case of the test table fixes what the reader does with `0123`. The model keeps the permissive digit scan.
- `JsonGrammar.MemberValue`: a repeated member name replaces the earlier value in place, at the position of its first occurrence (`JsonValues.Put`). Section 4 of RFC 8259 leaves the meaning of repeated names open, and no case of the test table fixes it.
- `JsonGrammar.FractionEnd`: a `.` not followed by a digit does not start a fraction and is left unread. So `ParseDocument("1.", false) == Ok(Integer(1))` and `ParseDocument("1.", true) == Err(TrailingBytes(1))` (`JsonExamples.DotWithoutDigit`). The test table fixes this behaviour only for a bare exponent (`0E`, `ncbi-oauth-test/ncbi-json-ut.cpp:262-269`); for a bare `.` it is the model's choice.
- `JsonGrammar.StringChars` accepts raw control bytes (below 0x20) inside a string. Section 7 of RFC 8259 requires them to be escaped; no case of the test table refuses them.
- `JwtCodec.JwtFactory.Sign` mints the `jti` before it asks the registry for a signer. A `sign` that fails for want of a signer still moves the identifier counter on. The order inside `jwt.cpp` is not part of this model.
- `JwtCodec.CheckTimes` refuses an `exp` or `nbf` that is not an integer as `MalformedToken`, because section 4.1.4 of RFC 7519 requires a NumericDate there. How `jwt.cpp` reacts to such a claim is not part of this model. The properties of signed tokens (`JwtProperties.DecodeSigned`, `JwtProperties.SignThenDecode`) therefore require integer times in the claims set.
