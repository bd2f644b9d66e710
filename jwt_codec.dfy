/**
 * The JWT factory and the JWS compact serialization (section 7.1 of
 * RFC 7515): signing merges the factory's registered claims into a claims
 * set and emits `header.payload.signature`, each part base64url-encoded;
 * decoding splits such a token, decodes and parses both JSON objects,
 * verifies the signature and only then checks the time claims.
 */
module JwtCodec {
  import opened Text
  import opened Results
  import opened JsonValues
  import JsonGrammar
  import JsonStability
  import Base64Url
  import Jwa
  import opened JwtClaims

  datatype JwtError =
    | MalformedToken
    | UnknownAlgorithm
    | SignatureInvalid
    | TokenExpired
    | TokenNotYetValid

  // ---------------------------------------------------------------------
  // Segments of a compact token
  // ---------------------------------------------------------------------

  /** The pieces of a text between its `.` separators. */
  function Segments(t: Bytes): (r: seq<Bytes>)
    ensures |r| > 0
    decreases |t|
  {
    if '.' !in t then [t]
    else
      var i := IndexOf(t, '.');
      [t[..i]] + Segments(t[i + 1..])
  }

  /** A piece without a dot, a dot, and the rest: the piece is the first segment. */
  lemma SegmentsFront(a: Bytes, rest: Bytes)
    requires '.' !in a
    ensures Segments(a + "." + rest) == [a] + Segments(rest)
  {
    var t := a + "." + rest;
    IndexOfAfter(a, '.', rest);
    assert t[..|a|] == a;
    assert t[|a| + 1..] == rest;
  }

  /** Three dot-free pieces joined by dots split back into those three pieces. */
  lemma SegmentsOfThree(a: Bytes, b: Bytes, c: Bytes)
    requires '.' !in a && '.' !in b && '.' !in c
    ensures Segments(a + "." + b + "." + c) == [a, b, c]
  {
    assert a + "." + b + "." + c == a + "." + (b + "." + c);
    SegmentsFront(a, b + "." + c);
    SegmentsFront(b, c);
  }

  /** The three parts of a compact token: exactly three segments, none of them empty. */
  function SplitToken(token: Bytes): (r: Result<(Bytes, Bytes, Bytes), JwtError>)
    ensures r.Ok? <==> |Segments(token)| == 3 && forall k | 0 <= k < 3 :: Segments(token)[k] != []
    ensures r.Ok? ==> Segments(token) == [r.value.0, r.value.1, r.value.2]
    ensures r.Err? ==> r == Err(MalformedToken)
  {
    var segs := Segments(token);
    if |segs| != 3 || segs[0] == [] || segs[1] == [] || segs[2] == [] then Err(MalformedToken)
    else Ok((segs[0], segs[1], segs[2]))
  }

  // ---------------------------------------------------------------------
  // Header, payload and signature
  // ---------------------------------------------------------------------

  /** The JOSE header `{"alg":<alg>,"typ":"JWT"}`: a valid object naming the algorithm and the type. */
  function Header(alg: Bytes): (h: seq<Member>)
    ensures ValidMembers(h)
    ensures Get(h, "alg") == Some(String(alg)) && Get(h, "typ") == Some(String("JWT"))
  {
    var ms := [Member("alg", String(alg)), Member("typ", String("JWT"))];
    assert ms[0].name != ms[1].name by { assert ms[0].name[0] != ms[1].name[0]; }
    assert Valid(ms[0].value) && Valid(ms[1].value);
    assert Valid(Object(ms));
    ms
  }

  /** The bytes a token's signature covers: the first two segments and the dot between them. */
  function SigningInput(header: seq<Member>, payload: seq<Member>): Bytes {
    Base64Url.Encode(ToJson(Object(header))) + "." + Base64Url.Encode(ToJson(Object(payload)))
  }

  /**
   * The compact serialization of a header and payload signed by `signer`:
   * it splits back into the encoded header, the encoded payload and the
   * encoded signature.
   */
  function Token(header: seq<Member>, payload: seq<Member>, signer: Jwa.Signer): (t: Bytes)
    ensures Segments(t) == [Base64Url.Encode(ToJson(Object(header))), Base64Url.Encode(ToJson(Object(payload))),
                            Base64Url.Encode(signer.Sign(SigningInput(header, payload)))]
  {
    var input := SigningInput(header, payload);
    var h, p := Base64Url.Encode(ToJson(Object(header))), Base64Url.Encode(ToJson(Object(payload)));
    var sig := Base64Url.Encode(signer.Sign(input));
    Base64Url.EncodeHasNoDot(ToJson(Object(header)));
    Base64Url.EncodeHasNoDot(ToJson(Object(payload)));
    Base64Url.EncodeHasNoDot(signer.Sign(input));
    SegmentsOfThree(h, p, sig);
    input + "." + sig
  }

  /**
   * A base64url segment holding a JSON object, as `JSONObject::make` reads
   * it: the members it yields have distinct names and representable values.
   */
  function DecodeObject(segment: Bytes): (r: Result<seq<Member>, JwtError>)
    ensures r.Ok? ==> ValidMembers(r.value)
    ensures r.Err? ==> r == Err(MalformedToken)
  {
    match Base64Url.Decode(segment)
    case Err(_) => Err(MalformedToken)
    case Ok(text) =>
      match JsonGrammar.ParseObjectDocument(text)
      case Ok(Object(ms)) => JsonStability.ParsedObjectValid(text); Ok(ms)
      case _ => Err(MalformedToken)
  }

  /**
   * The signature bytes of a segment. Only the canonical spelling of some
   * bytes decodes, so the bytes determine the segment: a segment altered
   * in any symbol yields other bytes or none.
   */
  function DecodeSignature(segment: Bytes): (r: Result<Bytes, JwtError>)
    ensures r.Ok? ==> Base64Url.Encode(r.value) == segment
    ensures r.Err? ==> r == Err(MalformedToken)
  {
    match Base64Url.Decode(segment)
    case Err(_) => Err(MalformedToken)
    case Ok(sig) => Base64Url.EncodeDecode(segment); Ok(sig)
  }

  /** The algorithm a header names, when it names one as a string. */
  function AlgorithmOf(header: seq<Member>): (r: Result<Bytes, JwtError>)
    ensures r.Ok? <==> Get(header, "alg").Some? && Get(header, "alg").value.String?
    ensures r.Ok? ==> Get(header, "alg") == Some(String(r.value))
    ensures r.Err? ==> r == Err(UnknownAlgorithm)
  {
    match Get(header, "alg")
    case Some(String(alg)) => Ok(alg)
    case _ => Err(UnknownAlgorithm)
  }

  /** A time claim that is absent or an integer number of seconds since the epoch. */
  predicate TimeTyped(payload: seq<Member>, key: Bytes) {
    match Get(payload, key)
    case None => true
    case Some(v) => v.Integer?
  }

  predicate TimesTyped(payload: seq<Member>) {
    TimeTyped(payload, "exp") && TimeTyped(payload, "nbf")
  }

  /**
   * The time claims of a verified payload: an `exp` or `nbf` that is not an
   * integer is malformed; `now` must be before `exp` and not before `nbf`.
   */
  function CheckTimes(payload: seq<Member>, now: int): (r: Result<seq<Member>, JwtError>)
    ensures r.Ok? <==> TimesTyped(payload) && !Expired(payload, now) && !Early(payload, now)
    ensures r.Ok? ==> r.value == payload
    ensures !TimesTyped(payload) ==> r == Err(MalformedToken)
    ensures TimesTyped(payload) && Expired(payload, now) ==> r == Err(TokenExpired)
    ensures TimesTyped(payload) && !Expired(payload, now) && Early(payload, now) ==> r == Err(TokenNotYetValid)
  {
    if !TimesTyped(payload) then Err(MalformedToken)
    else if Expired(payload, now) then Err(TokenExpired)
    else if Early(payload, now) then Err(TokenNotYetValid)
    else Ok(payload)
  }

  /** `now` is at or after the `exp` time. */
  predicate Expired(payload: seq<Member>, now: int) {
    match Get(payload, "exp")
    case Some(Integer(exp)) => !(now < exp)
    case _ => false
  }

  /** `now` is before the `nbf` time. */
  predicate Early(payload: seq<Member>, now: int) {
    match Get(payload, "nbf")
    case Some(Integer(nbf)) => now < nbf
    case _ => false
  }

  /** A token that has expired stays expired: only an `exp` time makes it so, and it is fixed. */
  lemma ExpiredLater(payload: seq<Member>, now: int, later: int)
    requires Expired(payload, now) && now <= later
    ensures Expired(payload, later)
    ensures Get(payload, "exp").Some? && Get(payload, "exp").value.Integer? && Get(payload, "exp").value.n <= now
  {
  }

  /** A token that is not yet valid was not valid before either. */
  lemma EarlyBefore(payload: seq<Member>, now: int, earlier: int)
    requires Early(payload, now) && earlier <= now
    ensures Early(payload, earlier)
    ensures Get(payload, "nbf").Some? && Get(payload, "nbf").value.Integer? && now < Get(payload, "nbf").value.n
  {
  }

  // ---------------------------------------------------------------------
  // Registered claims added by the factory
  // ---------------------------------------------------------------------

  /** The factory's registered-claim settings. */
  datatype Defaults = Defaults(iss: Bytes, sub: Bytes, aud: seq<Bytes>, duration: Option<int>, notBefore: Option<int>)

  /** The factory's issuer, subject and every audience are StringOrURI values. */
  predicate DefaultsValid(d: Defaults) {
    && IsStringOrUri(d.iss) && IsStringOrUri(d.sub)
    && forall k | 0 <= k < |d.aud| :: IsStringOrUri(d.aud[k])
  }

  /** The `aud` value for a list of audiences: one is a string, several an array. */
  function AudienceValue(aud: seq<Bytes>): (v: Value)
    requires |aud| > 0
    ensures |aud| == 1 ==> v == String(aud[0])
    ensures |aud| > 1 ==> v.Array? && |v.elems| == |aud| && forall k | 0 <= k < |aud| :: v.elems[k] == String(aud[k])
  {
    if |aud| == 1 then String(aud[0]) else Array(seq(|aud|, k requires 0 <= k < |aud| => String(aud[k])))
  }

  /** The offset in seconds that a claims set records under `key`, else the factory's. */
  function Offset(claims: seq<Member>, key: Bytes, fallback: Option<int>): Option<int> {
    match Get(claims, key)
    case Some(Integer(n)) => Some(n)
    case _ => fallback
  }

  /** Sets `key` to `now` plus the offset, when there is one. */
  function PutTime(ms: seq<Member>, key: Bytes, now: int, offset: Option<int>): seq<Member> {
    match offset
    case Some(n) => Put(ms, key, Integer(now + n))
    case None => ms
  }

  /** Sets `key` to the factory's value when it has one and the claims set has none. */
  function PutDefault(ms: seq<Member>, claims: seq<Member>, key: Bytes, value: Option<Value>): seq<Member> {
    match value
    case Some(v) => if key in Names(claims) then ms else Put(ms, key, v)
    case None => ms
  }

  function NonEmpty(t: Bytes): Option<Value> {
    if t == [] then None else Some(String(t))
  }

  function Audiences(aud: seq<Bytes>): Option<Value> {
    if aud == [] then None else Some(AudienceValue(aud))
  }

  /**
   * The payload `sign` emits for a claims set: the factory's `iss`, `sub`
   * and `aud` where the claims set has none, `iat` the signing time,
   * `exp` and `nbf` resolved from their offsets, and `jti` the identifier.
   */
  function Resolve(claims: seq<Member>, d: Defaults, now: int, jti: Bytes): (r: seq<Member>)
    ensures Get(r, "jti") == Some(String(jti))
  {
    GetPutSame(Timed(Named(claims, d), claims, d, now), "jti", String(jti));
    Put(Timed(Named(claims, d), claims, d, now), "jti", String(jti))
  }

  /** The claims set with the factory's `iss`, `sub` and `aud` where it has none of its own. */
  function Named(claims: seq<Member>, d: Defaults): seq<Member> {
    PutDefault(PutDefault(PutDefault(claims, claims, "iss", NonEmpty(d.iss)),
                          claims, "sub", NonEmpty(d.sub)),
               claims, "aud", Audiences(d.aud))
  }

  /** `iat`, then `exp` and `nbf` as times from their offsets. */
  function Timed(ms: seq<Member>, claims: seq<Member>, d: Defaults, now: int): seq<Member> {
    PutTime(PutTime(Put(ms, "iat", Integer(now)), "exp", now, Offset(claims, "exp", d.duration)),
            "nbf", now, Offset(claims, "nbf", d.notBefore))
  }

  // ---------------------------------------------------------------------
  // The identifier sequence
  // ---------------------------------------------------------------------

  /** The process-wide counter behind `newJTI`, shared by every factory. */
  class IdSequence {
    var next: nat

    constructor ()
      ensures next == 0
    {
      next := 0;
    }

    /** `newJTI`: the decimal numeral of the counter, which then moves on. */
    method NewJti() returns (jti: Bytes)
      modifies this
      ensures jti == Decimal(old(next)) && next == old(next) + 1
    {
      jti := Decimal(next);
      next := next + 1;
    }
  }

  /** Identifiers minted one after the other differ. */
  method TwoJtis(ids: IdSequence) returns (a: Bytes, b: Bytes)
    modifies ids
    ensures a != b
  {
    a := ids.NewJti();
    b := ids.NewJti();
    DecimalInjective(ids.next - 2, ids.next - 1);
  }

  // ---------------------------------------------------------------------
  // The factory
  // ---------------------------------------------------------------------

  /**
   * `JWTFactory`: keys, registered-claim settings and the algorithm it
   * signs with, over an algorithm registry and the shared identifier
   * sequence.
   */
  class JwtFactory {
    const alg: Bytes
    const registry: Jwa.JwaFactory
    const ids: IdSequence
    var signKey: Bytes
    var verifyKey: Bytes
    var iss: Bytes
    var sub: Bytes
    var aud: seq<Bytes>
    var duration: Option<int>
    var notBefore: Option<int>

    constructor (alg: Bytes, registry: Jwa.JwaFactory, ids: IdSequence)
      ensures this.alg == alg && this.registry == registry && this.ids == ids
      ensures signKey == [] && verifyKey == [] && iss == [] && sub == [] && aud == []
      ensures duration == None && notBefore == None
      ensures Valid()
    {
      this.alg := alg;
      this.registry := registry;
      this.ids := ids;
      signKey, verifyKey, iss, sub, aud := [], [], [], [], [];
      duration, notBefore := None, None;
    }

    /** Copy construction: every key and setting is duplicated. */
    constructor Copy(other: JwtFactory)
      ensures alg == other.alg && registry == other.registry && ids == other.ids
      ensures signKey == other.signKey && verifyKey == other.verifyKey
      ensures iss == other.iss && sub == other.sub && aud == other.aud
      ensures duration == other.duration && notBefore == other.notBefore
    {
      alg, registry, ids := other.alg, other.registry, other.ids;
      signKey, verifyKey := other.signKey, other.verifyKey;
      iss, sub, aud := other.iss, other.sub, other.aud;
      duration, notBefore := other.duration, other.notBefore;
    }

    /** Assignment: the keys and settings of the other factory. */
    method Assign(other: JwtFactory)
      modifies this
      ensures signKey == old(other.signKey) && verifyKey == old(other.verifyKey)
      ensures iss == old(other.iss) && sub == old(other.sub) && aud == old(other.aud)
      ensures duration == old(other.duration) && notBefore == old(other.notBefore)
    {
      signKey, verifyKey := other.signKey, other.verifyKey;
      iss, sub, aud := other.iss, other.sub, other.aud;
      duration, notBefore := other.duration, other.notBefore;
    }

    function Settings(): Defaults
      reads this
    {
      Defaults(iss, sub, aud, duration, notBefore)
    }

    /** The settings the checked setters keep: StringOrURI issuer, subject and audiences. */
    predicate Valid()
      reads this
    {
      DefaultsValid(Settings())
    }

    method SetIssuer(value: Bytes) returns (r: Outcome<ClaimError>)
      modifies this
      ensures r == CheckStringOrUri(value)
      ensures iss == (if r == Pass then value else old(iss))
      ensures sub == old(sub) && aud == old(aud) && duration == old(duration) && notBefore == old(notBefore)
      ensures signKey == old(signKey) && verifyKey == old(verifyKey)
      ensures old(Valid()) ==> Valid()
    {
      r := CheckStringOrUri(value);
      if r == Pass {
        iss := value;
      }
    }

    method SetSubject(value: Bytes) returns (r: Outcome<ClaimError>)
      modifies this
      ensures r == CheckStringOrUri(value)
      ensures sub == (if r == Pass then value else old(sub))
      ensures iss == old(iss) && aud == old(aud) && duration == old(duration) && notBefore == old(notBefore)
      ensures signKey == old(signKey) && verifyKey == old(verifyKey)
      ensures old(Valid()) ==> Valid()
    {
      r := CheckStringOrUri(value);
      if r == Pass {
        sub := value;
      }
    }

    /** `addAudience`: a checked audience joins the end of the list. */
    method AddAudience(value: Bytes) returns (r: Outcome<ClaimError>)
      modifies this
      ensures r == CheckStringOrUri(value)
      ensures aud == (if r == Pass then old(aud) + [value] else old(aud))
      ensures iss == old(iss) && sub == old(sub) && duration == old(duration) && notBefore == old(notBefore)
      ensures signKey == old(signKey) && verifyKey == old(verifyKey)
      ensures old(Valid()) ==> Valid()
    {
      r := CheckStringOrUri(value);
      if r == Pass {
        aud := aud + [value];
      }
    }

    method SetDuration(seconds: int)
      requires IsInt64(seconds)
      modifies this
      ensures duration == Some(seconds)
      ensures iss == old(iss) && sub == old(sub) && aud == old(aud) && notBefore == old(notBefore)
      ensures signKey == old(signKey) && verifyKey == old(verifyKey)
    {
      duration := Some(seconds);
    }

    method SetNotBefore(seconds: int)
      requires IsInt64(seconds)
      modifies this
      ensures notBefore == Some(seconds)
      ensures iss == old(iss) && sub == old(sub) && aud == old(aud) && duration == old(duration)
      ensures signKey == old(signKey) && verifyKey == old(verifyKey)
    {
      notBefore := Some(seconds);
    }

    method SetSigningKeys(sign: Bytes, verify: Bytes)
      modifies this
      ensures signKey == sign && verifyKey == verify
      ensures iss == old(iss) && sub == old(sub) && aud == old(aud)
      ensures duration == old(duration) && notBefore == old(notBefore)
    {
      signKey, verifyKey := sign, verify;
    }

    /** `make`: a claims set with no claims at all. */
    method Make() returns (claims: Jwt)
      ensures fresh(claims) && claims.payload == [] && claims.Valid()
    {
      claims := new Jwt([]);
    }

    /**
     * `sign`: mints an identifier, resolves the claims set against the
     * settings and signs header and payload with a signer for the
     * factory's algorithm and signing key.
     */
    method Sign(claims: Jwt, now: int) returns (r: Result<Bytes, JwtError>)
      modifies ids
      ensures ids.next == old(ids.next) + 1
      ensures r == match registry.MakeSigner(alg, alg, signKey) {
        case Err(_) => Err(UnknownAlgorithm)
        case Ok(signer) => Ok(Token(Header(alg), Resolve(claims.payload, Settings(), now, Decimal(old(ids.next))), signer))
      }
    {
      var jti := ids.NewJti();
      var payload := Resolve(claims.payload, Settings(), now, jti);
      match registry.MakeSigner(alg, alg, signKey)
      case Err(_) =>
        r := Err(UnknownAlgorithm);
      case Ok(signer) =>
        r := Ok(Token(Header(alg), payload, signer));
    }

    /**
     * The header names an algorithm with a verifier, and that verifier
     * accepts the signature over `input` with the verifying key.
     */
    ghost predicate Accepted(input: Bytes, header: seq<Member>, sig: Bytes)
      reads this, registry
    {
      && AlgorithmOf(header).Ok?
      && AlgorithmOf(header).value in registry.verifierFacts
      && registry.verifierFacts[AlgorithmOf(header).value].accepts(verifyKey, input, sig)
    }

    /**
     * The verifier the header asks for: its `alg` must be a string naming
     * an algorithm with a verifier factory, bound to the verifying key.
     */
    function SelectVerifier(header: seq<Member>): (r: Result<Jwa.Verifier, JwtError>)
      reads this, registry
      ensures r.Ok? <==> AlgorithmOf(header).Ok? && AlgorithmOf(header).value in registry.verifierFacts
      ensures r.Ok? ==> r.value.key == verifyKey && r.value.fact == registry.verifierFacts[AlgorithmOf(header).value]
      ensures r.Err? ==> r == Err(UnknownAlgorithm)
    {
      match AlgorithmOf(header)
      case Err(e) => Err(e)
      case Ok(name) =>
        match registry.MakeVerifier(name, name, verifyKey)
        case Err(_) => Err(UnknownAlgorithm)
        case Ok(verifier) => Ok(verifier)
    }

    /**
     * A token that splits into three parts, whose header and signature
     * decode, and whose signature is accepted over the first two parts.
     */
    ghost predicate Authentic(token: Bytes)
      reads this, registry
    {
      && SplitToken(token).Ok?
      && var (h, p, s) := SplitToken(token).value;
      && DecodeObject(h).Ok? && DecodeSignature(s).Ok?
      && Accepted(h + "." + p, DecodeObject(h).value, DecodeSignature(s).value)
    }

    /**
     * `decode`: the payload of a token, checked in order: three non-empty
     * segments, a header and a payload that decode to JSON objects, an
     * algorithm named in the header with a verifier, a signature that
     * decodes, a signature the verifier passes, and last the time claims.
     * No claim is read before the signature has passed, so a payload is
     * returned, and a time claim reported, only for an authentic token.
     */
    function Decode(token: Bytes, now: int): (r: Result<seq<Member>, JwtError>)
      reads this, registry
      ensures r.Ok? ==> Authentic(token) && TimesTyped(r.value) && !Expired(r.value, now) && !Early(r.value, now)
      ensures r.Ok? ==> ValidMembers(r.value)
      ensures r == Err(TokenExpired) || r == Err(TokenNotYetValid) ==> Authentic(token)
    {
      match SplitToken(token)
      case Err(e) => Err(e)
      case Ok((h, p, s)) => DecodeParts(h, p, s, now)
    }

    /**
     * Decoding the three segments of a token: both objects, then the
     * algorithm, whatever the signature segment holds, then the signature,
     * its verification and the time claims.
     */
    function DecodeParts(h: Bytes, p: Bytes, s: Bytes, now: int): (r: Result<seq<Member>, JwtError>)
      reads this, registry
      ensures r.Ok? || r == Err(TokenExpired) || r == Err(TokenNotYetValid) ==>
        && DecodeObject(h).Ok? && DecodeSignature(s).Ok?
        && Accepted(h + "." + p, DecodeObject(h).value, DecodeSignature(s).value)
      ensures r.Ok? ==> TimesTyped(r.value) && !Expired(r.value, now) && !Early(r.value, now)
      ensures r.Ok? ==> DecodeObject(p).Ok? && r.value == DecodeObject(p).value
    {
      match DecodeObject(h)
      case Err(e) => Err(e)
      case Ok(header) =>
        match DecodeObject(p)
        case Err(e) => Err(e)
        case Ok(payload) => AfterObjects(h + "." + p, header, payload, s, now)
    }

    /** Past both objects: the algorithm, then the signature, its verification and the time claims. */
    function AfterObjects(input: Bytes, header: seq<Member>, payload: seq<Member>, s: Bytes, now: int)
      : (r: Result<seq<Member>, JwtError>)
      reads this, registry
      ensures r.Ok? || r == Err(TokenExpired) || r == Err(TokenNotYetValid) ==>
        DecodeSignature(s).Ok? && Accepted(input, header, DecodeSignature(s).value)
      ensures r.Ok? ==> r.value == payload && TimesTyped(payload) && !Expired(payload, now) && !Early(payload, now)
      ensures SelectVerifier(header).Err? ==> r == Err(UnknownAlgorithm)
    {
      if SelectVerifier(header).Err? then Err(UnknownAlgorithm)
      else
        match DecodeSignature(s)
        case Err(e) => Err(e)
        case Ok(sig) => VerifyThenCheck(input, header, payload, sig, now)
    }

    /** Verifying the signature with the header's algorithm, and only then checking the time claims. */
    function VerifyThenCheck(input: Bytes, header: seq<Member>, payload: seq<Member>, sig: Bytes, now: int)
      : (r: Result<seq<Member>, JwtError>)
      reads this, registry
      ensures r.Ok? || r == Err(TokenExpired) || r == Err(TokenNotYetValid) ==> Accepted(input, header, sig)
      ensures !Accepted(input, header, sig) && AlgorithmOf(header).Ok? && AlgorithmOf(header).value in registry.verifierFacts
        ==> r == Err(SignatureInvalid)
      ensures Accepted(input, header, sig) ==> r == CheckTimes(payload, now)
    {
      match AlgorithmOf(header)
      case Err(e) => Err(e)
      case Ok(name) =>
        match registry.MakeVerifier(name, name, verifyKey)
        case Err(_) => Err(UnknownAlgorithm)
        case Ok(verifier) =>
          if verifier.Verify(input, sig) != Pass then Err(SignatureInvalid)
          else CheckTimes(payload, now)
    }

    /**
     * `decode` as the source has it: a new claims set holding the decoded
     * payload. A JWT is built only through validation, so a payload whose
     * `iss`, `sub` or `aud` is not a StringOrURI is refused as malformed.
     */
    method DecodeJwt(token: Bytes, now: int) returns (r: Result<Jwt, JwtError>)
      ensures r.Ok? <==> Decode(token, now).Ok? && ClaimsValid(Decode(token, now).value)
      ensures r.Ok? ==> fresh(r.value) && r.value.payload == Decode(token, now).value && r.value.Valid()
      ensures r.Err? ==> r.error == if Decode(token, now).Err? then Decode(token, now).error else MalformedToken
    {
      match Decode(token, now)
      case Ok(payload) =>
        if ClaimsValid(payload) {
          var claims := new Jwt(payload);
          r := Ok(claims);
        } else {
          r := Err(MalformedToken);
        }
      case Err(e) =>
        r := Err(e);
    }
  }
}
