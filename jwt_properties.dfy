/**
 * What signing and decoding promise together: a signed token has three
 * segments, decoding it with a matching verifier gives back the payload
 * that was signed, that payload carries the claims set's own claims plus
 * `iat`, `jti` and the resolved `exp`, and a token whose signature is
 * empty never decodes.
 */
module JwtProperties {
  import opened Text
  import opened Results
  import opened JsonValues
  import JsonGrammar
  import JsonRoundTrip
  import Base64Url
  import Jwa
  import opened JwtClaims
  import opened JwtCodec

  // ---------------------------------------------------------------------
  // The shape of a signed token
  // ---------------------------------------------------------------------

  lemma ObjectJsonNotEmpty(ms: seq<Member>)
    ensures Base64Url.Encode(ToJson(Object(ms))) != []
  {
    Base64Url.EncodeEmpty(ToJson(Object(ms)));
  }

  /** With a non-empty signature, all three segments are non-empty and the token splits. */
  lemma SignedTokenSplits(header: seq<Member>, payload: seq<Member>, signer: Jwa.Signer)
    requires signer.Sign(SigningInput(header, payload)) != []
    ensures SplitToken(Token(header, payload, signer))
      == Ok((Base64Url.Encode(ToJson(Object(header))), Base64Url.Encode(ToJson(Object(payload))),
             Base64Url.Encode(signer.Sign(SigningInput(header, payload)))))
  {
    ObjectJsonNotEmpty(header);
    ObjectJsonNotEmpty(payload);
    Base64Url.EncodeEmpty(signer.Sign(SigningInput(header, payload)));
  }

  /**
   * A signer that produces an empty signature (the unsecured `none`
   * algorithm) yields a token whose last segment is empty, which `decode`
   * refuses as malformed whatever the registry holds.
   */
  lemma EmptySignatureRefused(f: JwtFactory, header: seq<Member>, payload: seq<Member>, signer: Jwa.Signer, now: int)
    requires signer.Sign(SigningInput(header, payload)) == []
    ensures f.Decode(Token(header, payload, signer), now) == Err(MalformedToken)
  {
    Base64Url.EncodeEmpty(signer.Sign(SigningInput(header, payload)));
  }

  // ---------------------------------------------------------------------
  // Decoding the parts
  // ---------------------------------------------------------------------

  /** An encoded rendering of a valid object decodes to the object's members. */
  lemma ObjectSegment(ms: seq<Member>)
    requires ValidMembers(ms)
    ensures DecodeObject(Base64Url.Encode(ToJson(Object(ms)))) == Ok(ms)
  {
    Base64Url.DecodeEncode(ToJson(Object(ms)));
    JsonRoundTrip.ObjectDocumentRoundTrip(ms);
  }

  lemma SignatureSegment(sig: Bytes)
    ensures DecodeSignature(Base64Url.Encode(sig)) == Ok(sig)
  {
    Base64Url.DecodeEncode(sig);
  }

  /**
   * A signature segment that decodes determines the signature bytes handed
   * to the verifier: two different segments never give the same bytes.
   */
  lemma SignatureSegmentsDiffer(s: Bytes, t: Bytes)
    requires DecodeSignature(s).Ok? && DecodeSignature(t).Ok? && s != t
    ensures DecodeSignature(s).value != DecodeSignature(t).value
  {
  }

  /**
   * A token whose header and payload decode but whose header names no
   * algorithm with a verifier is refused as `UnknownAlgorithm`, whatever
   * its signature segment holds.
   */
  lemma UnknownAlgorithmRejected(f: JwtFactory, token: Bytes, now: int, h: Bytes, p: Bytes, s: Bytes)
    requires SplitToken(token) == Ok((h, p, s))
    requires DecodeObject(h).Ok? && DecodeObject(p).Ok?
    requires AlgorithmOf(DecodeObject(h).value).Err?
      || AlgorithmOf(DecodeObject(h).value).value !in f.registry.verifierFacts
    ensures f.Decode(token, now) == Err(UnknownAlgorithm)
  {
  }

  /**
   * Once every step before verification has succeeded, `decode` is decided
   * by the verifier and then by the time claims.
   */
  lemma DecodeAfterParts(f: JwtFactory, token: Bytes, now: int, h: Bytes, p: Bytes, s: Bytes,
                         header: seq<Member>, payload: seq<Member>, sig: Bytes, alg: Bytes)
    requires SplitToken(token) == Ok((h, p, s))
    requires DecodeObject(h) == Ok(header) && DecodeObject(p) == Ok(payload)
    requires DecodeSignature(s) == Ok(sig) && AlgorithmOf(header) == Ok(alg)
    requires alg in f.registry.verifierFacts
    ensures f.Decode(token, now) ==
      if f.registry.verifierFacts[alg].accepts(f.verifyKey, h + "." + p, sig) then CheckTimes(payload, now)
      else Err(SignatureInvalid)
  {
  }

  /**
   * The round trip: a token signed by a signer whose signature the
   * factory's verifier for the same algorithm accepts decodes, within the
   * payload's time window, to exactly the payload that was signed.
   */
  lemma DecodeSigned(f: JwtFactory, payload: seq<Member>, signer: Jwa.Signer, now: int)
    requires ValidMembers(payload)
    requires f.registry.MakeVerifier(signer.alg, signer.alg, f.verifyKey).Ok?
    requires Jwa.Pairs(signer, f.registry.MakeVerifier(signer.alg, signer.alg, f.verifyKey).value)
    requires signer.Sign(SigningInput(Header(signer.alg), payload)) != []
    requires TimesTyped(payload) && !Expired(payload, now) && !Early(payload, now)
    ensures f.Decode(Token(Header(signer.alg), payload, signer), now) == Ok(payload)
  {
    var header := Header(signer.alg);
    var input := SigningInput(header, payload);
    var sig := signer.Sign(input);
    var h, p := Base64Url.Encode(ToJson(Object(header))), Base64Url.Encode(ToJson(Object(payload)));
    SignedTokenSplits(header, payload, signer);
    ObjectSegment(header);
    ObjectSegment(payload);
    SignatureSegment(sig);
    assert input == h + "." + p;
    DecodeAfterParts(f, Token(header, payload, signer), now, h, p, Base64Url.Encode(sig),
                     header, payload, sig, signer.alg);
  }

  /** A token whose signature the verifier refuses is rejected as such, whatever its time claims say. */
  lemma ForgedSignatureRejected(f: JwtFactory, payload: seq<Member>, signer: Jwa.Signer, now: int)
    requires ValidMembers(payload)
    requires signer.alg in f.registry.verifierFacts
    requires var input := SigningInput(Header(signer.alg), payload);
      var sig := signer.Sign(input);
      sig != [] && !f.registry.verifierFacts[signer.alg].accepts(f.verifyKey, input, sig)
    ensures f.Decode(Token(Header(signer.alg), payload, signer), now) == Err(SignatureInvalid)
  {
    var header := Header(signer.alg);
    var input := SigningInput(header, payload);
    var sig := signer.Sign(input);
    var h, p := Base64Url.Encode(ToJson(Object(header))), Base64Url.Encode(ToJson(Object(payload)));
    SignedTokenSplits(header, payload, signer);
    ObjectSegment(header);
    ObjectSegment(payload);
    SignatureSegment(sig);
    assert input == h + "." + p;
    DecodeAfterParts(f, Token(header, payload, signer), now, h, p, Base64Url.Encode(sig),
                     header, payload, sig, signer.alg);
  }

  /**
   * Tamper detection: when the verifier the registry makes for the signer's
   * algorithm and the factory's key (`MakeVerifier`) accepts only its
   * signer's signatures, a signed token whose signature segment is replaced by any
   * other segment that decodes is refused as `SignatureInvalid` (as
   * `MalformedToken` when the new segment is empty), whatever its times.
   */
  lemma TamperedSignatureRejected(f: JwtFactory, payload: seq<Member>, signer: Jwa.Signer, now: int, s: Bytes)
    requires ValidMembers(payload) && signer.alg in f.registry.verifierFacts
    requires Jwa.Sound(signer, Jwa.Verifier(signer.alg, signer.alg, f.verifyKey, f.registry.verifierFacts[signer.alg]))
    requires DecodeSignature(s).Ok?
    requires s != Base64Url.Encode(signer.Sign(SigningInput(Header(signer.alg), payload)))
    ensures f.Decode(SigningInput(Header(signer.alg), payload) + "." + s, now) ==
      if s == [] then Err(MalformedToken) else Err(SignatureInvalid)
  {
    var input := SigningInput(Header(signer.alg), payload);
    var forged := DecodeSignature(s).value;
    Base64Url.EncodeHasNoDot(forged);
    TamperedSplits(Header(signer.alg), payload, s);
    if s != [] {
      var sig := signer.Sign(input);
      SignatureSegment(sig);
      SignatureSegmentsDiffer(s, Base64Url.Encode(sig));
      SoundRefuses(f, signer, input, forged);
      TamperedParts(f, payload, signer.alg, now, input + "." + s,
                    Base64Url.Encode(ToJson(Object(Header(signer.alg)))),
                    Base64Url.Encode(ToJson(Object(payload))), s, forged);
    }
  }

  /**
   * Tamper detection on the payload: when the verifier the registry makes
   * for the signer's algorithm and the factory's key accepts only its
   * signer's signatures, and the signer's signatures tell inputs apart, a
   * signed token whose payload segment is replaced by any other segment is
   * refused: `MalformedToken` when the new segment is empty or does not
   * decode to a JSON object, and `SignatureInvalid` otherwise, whatever the
   * new payload's times.
   */
  lemma TamperedPayloadRejected(f: JwtFactory, payload: seq<Member>, signer: Jwa.Signer, now: int, p: Bytes)
    requires ValidMembers(payload) && signer.alg in f.registry.verifierFacts
    requires Jwa.Sound(signer, Jwa.Verifier(signer.alg, signer.alg, f.verifyKey, f.registry.verifierFacts[signer.alg]))
    requires Jwa.Binding(signer)
    requires signer.Sign(SigningInput(Header(signer.alg), payload)) != []
    requires '.' !in p && p != Base64Url.Encode(ToJson(Object(payload)))
    ensures f.Decode(Base64Url.Encode(ToJson(Object(Header(signer.alg)))) + "." + p + "."
                     + Base64Url.Encode(signer.Sign(SigningInput(Header(signer.alg), payload))), now)
      == if p == [] || DecodeObject(p).Err? then Err(MalformedToken) else Err(SignatureInvalid)
  {
    var header := Header(signer.alg);
    var h := Base64Url.Encode(ToJson(Object(header)));
    var input := SigningInput(header, payload);
    var sig := signer.Sign(input);
    var t := Base64Url.Encode(sig);
    var token: Bytes := h + "." + p + "." + t;
    Base64Url.EncodeHasNoDot(ToJson(Object(header)));
    Base64Url.EncodeHasNoDot(sig);
    ObjectJsonNotEmpty(header);
    Base64Url.EncodeEmpty(sig);
    PayloadSwapSplits(h, p, t);
    if p != [] {
      InputsDiffer(h, Base64Url.Encode(ToJson(Object(payload))), p);
      BindingRefuses(f, signer, input, h + "." + p);
      SwappedPayloadParts(f, signer.alg, now, token, h, p, t, sig);
    }
  }

  /** A token whose signature the verifier refuses for its own first two segments, past the split. */
  lemma SwappedPayloadParts(f: JwtFactory, alg: Bytes, now: int, token: Bytes, h: Bytes, p: Bytes, t: Bytes, sig: Bytes)
    requires alg in f.registry.verifierFacts
    requires h == Base64Url.Encode(ToJson(Object(Header(alg)))) && t == Base64Url.Encode(sig)
    requires SplitToken(token) == Ok((h, p, t))
    requires !f.registry.verifierFacts[alg].accepts(f.verifyKey, h + "." + p, sig)
    ensures f.Decode(token, now) == if DecodeObject(p).Err? then Err(MalformedToken) else Err(SignatureInvalid)
  {
    ObjectSegment(Header(alg));
    if DecodeObject(p).Ok? {
      SignatureSegment(sig);
      DecodeAfterParts(f, token, now, h, p, t, Header(alg), DecodeObject(p).value, sig, alg);
    }
  }

  /** Three dot-free segments, the outer two non-empty, split back unless the middle one is empty. */
  lemma PayloadSwapSplits(h: Bytes, p: Bytes, t: Bytes)
    requires '.' !in h && '.' !in p && '.' !in t && h != [] && t != []
    ensures SplitToken(h + "." + p + "." + t) == if p == [] then Err(MalformedToken) else Ok((h, p, t))
  {
    SegmentsOfThree(h, p, t);
  }

  /** Two signing inputs with the same header segment differ when their payload segments do. */
  lemma InputsDiffer(h: Bytes, p: Bytes, q: Bytes)
    requires p != q
    ensures h + "." + p != h + "." + q
  {
    assert (h + "." + p)[|h| + 1..] == p;
    assert (h + "." + q)[|h| + 1..] == q;
  }

  /** Under a sound pairing with a binding signer, the signature of one input is refused for any other. */
  lemma BindingRefuses(f: JwtFactory, signer: Jwa.Signer, signed: Bytes, presented: Bytes)
    requires signer.alg in f.registry.verifierFacts
    requires Jwa.Sound(signer, Jwa.Verifier(signer.alg, signer.alg, f.verifyKey, f.registry.verifierFacts[signer.alg]))
    requires Jwa.Binding(signer) && signed != presented
    ensures !f.registry.verifierFacts[signer.alg].accepts(f.verifyKey, presented, signer.Sign(signed))
  {
    var v := Jwa.Verifier(signer.alg, signer.alg, f.verifyKey, f.registry.verifierFacts[signer.alg]);
    Jwa.OtherInputFails(signer, v, signed, presented);
  }

  /** A signing input followed by any dot-free segment splits into its three parts, unless that segment is empty. */
  lemma TamperedSplits(header: seq<Member>, payload: seq<Member>, s: Bytes)
    requires '.' !in s
    ensures SplitToken(SigningInput(header, payload) + "." + s) ==
      if s == [] then Err(MalformedToken)
      else Ok((Base64Url.Encode(ToJson(Object(header))), Base64Url.Encode(ToJson(Object(payload))), s))
  {
    var h, p := Base64Url.Encode(ToJson(Object(header))), Base64Url.Encode(ToJson(Object(payload)));
    Base64Url.EncodeHasNoDot(ToJson(Object(header)));
    Base64Url.EncodeHasNoDot(ToJson(Object(payload)));
    ObjectJsonNotEmpty(header);
    ObjectJsonNotEmpty(payload);
    assert SigningInput(header, payload) + "." + s == h + "." + p + "." + s;
    SegmentsOfThree(h, p, s);
  }

  lemma TamperedParts(f: JwtFactory, payload: seq<Member>, alg: Bytes, now: int, token: Bytes,
                      h: Bytes, p: Bytes, s: Bytes, forged: Bytes)
    requires ValidMembers(payload) && alg in f.registry.verifierFacts
    requires h == Base64Url.Encode(ToJson(Object(Header(alg))))
    requires p == Base64Url.Encode(ToJson(Object(payload)))
    requires SplitToken(token) == Ok((h, p, s)) && DecodeSignature(s) == Ok(forged)
    requires !f.registry.verifierFacts[alg].accepts(f.verifyKey, h + "." + p, forged)
    ensures f.Decode(token, now) == Err(SignatureInvalid)
  {
    ObjectSegment(Header(alg));
    ObjectSegment(payload);
    DecodeAfterParts(f, token, now, h, p, s, Header(alg), payload, forged, alg);
  }

  /** Under a sound pairing the registry's verifier refuses every signature but the signer's own. */
  lemma SoundRefuses(f: JwtFactory, signer: Jwa.Signer, input: Bytes, forged: Bytes)
    requires signer.alg in f.registry.verifierFacts
    requires Jwa.Sound(signer, Jwa.Verifier(signer.alg, signer.alg, f.verifyKey, f.registry.verifierFacts[signer.alg]))
    requires forged != signer.Sign(input)
    ensures !f.registry.verifierFacts[signer.alg].accepts(f.verifyKey, input, forged)
  {
    var v := Jwa.Verifier(signer.alg, signer.alg, f.verifyKey, f.registry.verifierFacts[signer.alg]);
    Jwa.OtherSignatureFails(signer, v, input, forged);
  }

  /** A signed token whose `exp` has passed is rejected as expired even though its signature is good. */
  lemma ExpiredTokenRejected(f: JwtFactory, payload: seq<Member>, signer: Jwa.Signer, now: int)
    requires ValidMembers(payload)
    requires f.registry.MakeVerifier(signer.alg, signer.alg, f.verifyKey).Ok?
    requires Jwa.Pairs(signer, f.registry.MakeVerifier(signer.alg, signer.alg, f.verifyKey).value)
    requires signer.Sign(SigningInput(Header(signer.alg), payload)) != []
    requires TimesTyped(payload) && Expired(payload, now)
    ensures f.Decode(Token(Header(signer.alg), payload, signer), now) == Err(TokenExpired)
  {
    var header := Header(signer.alg);
    var input := SigningInput(header, payload);
    var sig := signer.Sign(input);
    var h, p := Base64Url.Encode(ToJson(Object(header))), Base64Url.Encode(ToJson(Object(payload)));
    SignedTokenSplits(header, payload, signer);
    ObjectSegment(header);
    ObjectSegment(payload);
    SignatureSegment(sig);
    assert input == h + "." + p;
    DecodeAfterParts(f, Token(header, payload, signer), now, h, p, Base64Url.Encode(sig),
                     header, payload, sig, signer.alg);
  }

  // ---------------------------------------------------------------------
  // The payload `sign` resolves
  // ---------------------------------------------------------------------

  lemma PutDefaultOther(ms: seq<Member>, claims: seq<Member>, key: Bytes, value: Option<Value>, name: Bytes)
    requires name != key
    ensures Get(PutDefault(ms, claims, key, value), name) == Get(ms, name)
  {
    if value.Some? && key !in Names(claims) {
      GetPutOther(ms, key, value.value, name);
    }
  }

  lemma PutTimeOther(ms: seq<Member>, key: Bytes, now: int, offset: Option<int>, name: Bytes)
    requires name != key
    ensures Get(PutTime(ms, key, now, offset), name) == Get(ms, name)
  {
    if offset.Some? {
      GetPutOther(ms, key, Integer(now + offset.value), name);
    }
  }

  lemma NamedKeeps(claims: seq<Member>, d: Defaults, name: Bytes)
    requires name != "iss" && name != "sub" && name != "aud"
    ensures Get(Named(claims, d), name) == Get(claims, name)
  {
    var a := PutDefault(claims, claims, "iss", NonEmpty(d.iss));
    var b := PutDefault(a, claims, "sub", NonEmpty(d.sub));
    PutDefaultOther(claims, claims, "iss", NonEmpty(d.iss), name);
    PutDefaultOther(a, claims, "sub", NonEmpty(d.sub), name);
    PutDefaultOther(b, claims, "aud", Audiences(d.aud), name);
  }

  lemma PutDefaultGet(ms: seq<Member>, claims: seq<Member>, key: Bytes, value: Option<Value>)
    requires Get(ms, key) == Get(claims, key)
    ensures Get(PutDefault(ms, claims, key, value), key) == if key in Names(claims) then Get(claims, key) else value
  {
    if value.Some? && key !in Names(claims) {
      GetPutSame(ms, key, value.value);
    }
  }

  /** The factory's `iss`, `sub` or `aud` fills the claim exactly when the claims set has none. */
  lemma NamedGet(claims: seq<Member>, d: Defaults, key: Bytes, fallback: Option<Value>)
    requires (key == "iss" && fallback == NonEmpty(d.iss)) || (key == "sub" && fallback == NonEmpty(d.sub))
          || (key == "aud" && fallback == Audiences(d.aud))
    ensures Get(Named(claims, d), key) == if key in Names(claims) then Get(claims, key) else fallback
  {
    var a := PutDefault(claims, claims, "iss", NonEmpty(d.iss));
    var b := PutDefault(a, claims, "sub", NonEmpty(d.sub));
    if key == "iss" {
      PutDefaultGet(claims, claims, "iss", NonEmpty(d.iss));
      PutDefaultOther(a, claims, "sub", NonEmpty(d.sub), "iss");
      PutDefaultOther(b, claims, "aud", Audiences(d.aud), "iss");
    } else if key == "sub" {
      PutDefaultOther(claims, claims, "iss", NonEmpty(d.iss), "sub");
      PutDefaultGet(a, claims, "sub", NonEmpty(d.sub));
      PutDefaultOther(b, claims, "aud", Audiences(d.aud), "sub");
    } else {
      PutDefaultOther(claims, claims, "iss", NonEmpty(d.iss), "aud");
      PutDefaultOther(a, claims, "sub", NonEmpty(d.sub), "aud");
      PutDefaultGet(b, claims, "aud", Audiences(d.aud));
    }
  }

  /**
   * The merge `sign` performs on `iss`, `sub` and `aud`: the claims set's
   * own value wins; where it has none, the factory's non-empty issuer or
   * subject, or its audiences (one string, or an array of several), is used.
   */
  lemma ResolveNamed(claims: seq<Member>, d: Defaults, now: int, jti: Bytes, key: Bytes, fallback: Option<Value>)
    requires (key == "iss" && fallback == NonEmpty(d.iss)) || (key == "sub" && fallback == NonEmpty(d.sub))
          || (key == "aud" && fallback == Audiences(d.aud))
    ensures Get(Resolve(claims, d, now, jti), key) == if key in Names(claims) then Get(claims, key) else fallback
  {
    var named := Named(claims, d);
    NamedGet(claims, d, key, fallback);
    TimedKeeps(named, claims, d, now, key);
    GetPutOther(Timed(named, claims, d, now), "jti", String(jti), key);
  }

  /**
   * Signing keeps the StringOrURI invariant: a valid claims set resolved
   * against valid factory settings gives a payload whose `iss`, `sub` and
   * every audience are StringOrURI values.
   */
  lemma ResolveClaimsValid(claims: seq<Member>, d: Defaults, now: int, jti: Bytes)
    requires ClaimsValid(claims) && DefaultsValid(d)
    ensures ClaimsValid(Resolve(claims, d, now, jti))
  {
    ResolveNamed(claims, d, now, jti, "iss", NonEmpty(d.iss));
    ResolveNamed(claims, d, now, jti, "sub", NonEmpty(d.sub));
    ResolveNamed(claims, d, now, jti, "aud", Audiences(d.aud));
  }

  /** `sign` keeps every claim of the claims set whose name it does not own. */
  lemma ResolveKeepsClaims(claims: seq<Member>, d: Defaults, now: int, jti: Bytes, name: Bytes)
    requires !Registered(name)
    ensures Get(Resolve(claims, d, now, jti), name) == Get(claims, name)
  {
    var a := PutDefault(claims, claims, "iss", NonEmpty(d.iss));
    var b := PutDefault(a, claims, "sub", NonEmpty(d.sub));
    var named := Named(claims, d);
    PutDefaultOther(claims, claims, "iss", NonEmpty(d.iss), name);
    PutDefaultOther(a, claims, "sub", NonEmpty(d.sub), name);
    PutDefaultOther(b, claims, "aud", Audiences(d.aud), name);
    TimedKeeps(named, claims, d, now, name);
    GetPutOther(Timed(named, claims, d, now), "jti", String(jti), name);
  }

  lemma TimedKeeps(ms: seq<Member>, claims: seq<Member>, d: Defaults, now: int, name: Bytes)
    requires name != "iat" && name != "exp" && name != "nbf"
    ensures Get(Timed(ms, claims, d, now), name) == Get(ms, name)
  {
    var i := Put(ms, "iat", Integer(now));
    var e := PutTime(i, "exp", now, Offset(claims, "exp", d.duration));
    GetPutOther(ms, "iat", Integer(now), name);
    PutTimeOther(i, "exp", now, Offset(claims, "exp", d.duration), name);
    PutTimeOther(e, "nbf", now, Offset(claims, "nbf", d.notBefore), name);
  }

  /** The resolved payload carries `iat` = the signing time. */
  lemma ResolveStamps(claims: seq<Member>, d: Defaults, now: int, jti: Bytes)
    ensures Get(Resolve(claims, d, now, jti), "iat") == Some(Integer(now))
  {
    var ms := Named(claims, d);
    var i := Put(ms, "iat", Integer(now));
    var e := PutTime(i, "exp", now, Offset(claims, "exp", d.duration));
    GetPutSame(ms, "iat", Integer(now));
    PutTimeOther(i, "exp", now, Offset(claims, "exp", d.duration), "iat");
    PutTimeOther(e, "nbf", now, Offset(claims, "nbf", d.notBefore), "iat");
    GetPutOther(Timed(ms, claims, d, now), "jti", String(jti), "iat");
  }

  /** `exp` is the signing time plus the claims set's own offset, or else the factory's duration. */
  lemma ExpiryFromOffset(claims: seq<Member>, d: Defaults, now: int, jti: Bytes, n: int)
    requires Offset(claims, "exp", d.duration) == Some(n)
    ensures Get(Resolve(claims, d, now, jti), "exp") == Some(Integer(now + n))
  {
    var ms := Named(claims, d);
    var i := Put(ms, "iat", Integer(now));
    var e := PutTime(i, "exp", now, Offset(claims, "exp", d.duration));
    assert e == Put(i, "exp", Integer(now + n));
    GetPutSame(i, "exp", Integer(now + n));
    ResolveExpiryTail(ms, claims, d, now, jti, e);
  }

  lemma ResolveExpiryTail(ms: seq<Member>, claims: seq<Member>, d: Defaults, now: int, jti: Bytes, e: seq<Member>)
    requires ms == Named(claims, d)
    requires e == PutTime(Put(ms, "iat", Integer(now)), "exp", now, Offset(claims, "exp", d.duration))
    ensures Get(Resolve(claims, d, now, jti), "exp") == Get(e, "exp")
  {
    PutTimeOther(e, "nbf", now, Offset(claims, "nbf", d.notBefore), "exp");
    GetPutOther(Timed(ms, claims, d, now), "jti", String(jti), "exp");
  }

  /** `nbf` is the signing time plus the claims set's own offset, or else the factory's not-before offset. */
  lemma NotBeforeFromOffset(claims: seq<Member>, d: Defaults, now: int, jti: Bytes, n: int)
    requires Offset(claims, "nbf", d.notBefore) == Some(n)
    ensures Get(Resolve(claims, d, now, jti), "nbf") == Some(Integer(now + n))
  {
    var ms := Named(claims, d);
    var e := PutTime(Put(ms, "iat", Integer(now)), "exp", now, Offset(claims, "exp", d.duration));
    assert Timed(ms, claims, d, now) == Put(e, "nbf", Integer(now + n));
    GetPutSame(e, "nbf", Integer(now + n));
    GetPutOther(Timed(ms, claims, d, now), "jti", String(jti), "nbf");
  }

  /** With a factory not-before offset and no `nbf` of its own, a claims set becomes valid that many seconds after signing. */
  lemma NotBeforeFromDefault(claims: seq<Member>, d: Defaults, now: int, jti: Bytes)
    requires "nbf" !in Names(claims) && d.notBefore.Some?
    ensures Get(Resolve(claims, d, now, jti), "nbf") == Some(Integer(now + d.notBefore.value))
  {
    NotBeforeFromOffset(claims, d, now, jti, d.notBefore.value);
  }

  /** With a factory duration and no `exp` of its own, a claims set expires `duration` seconds after signing. */
  lemma ExpiryFromDuration(claims: seq<Member>, d: Defaults, now: int, jti: Bytes)
    requires "exp" !in Names(claims) && d.duration.Some?
    ensures Get(Resolve(claims, d, now, jti), "exp") == Some(Integer(now + d.duration.value))
  {
    ExpiryFromOffset(claims, d, now, jti, d.duration.value);
  }

  /**
   * When the claims set's own `exp` and `nbf` are absent or integers, so are
   * those of the resolved payload.
   */
  lemma ResolveTimesTyped(claims: seq<Member>, d: Defaults, now: int, jti: Bytes)
    requires TimesTyped(claims)
    ensures TimesTyped(Resolve(claims, d, now, jti))
  {
    var ms := Named(claims, d);
    var i := Put(ms, "iat", Integer(now));
    var e := PutTime(i, "exp", now, Offset(claims, "exp", d.duration));
    ResolveExpiryTail(ms, claims, d, now, jti, e);
    ExpiryTyped(ms, claims, d, now, i, e);
    GetPutOther(Timed(ms, claims, d, now), "jti", String(jti), "nbf");
    NotBeforeTyped(ms, claims, d, now, i, e);
  }

  lemma ExpiryTyped(ms: seq<Member>, claims: seq<Member>, d: Defaults, now: int, i: seq<Member>, e: seq<Member>)
    requires TimesTyped(claims) && ms == Named(claims, d) && i == Put(ms, "iat", Integer(now))
    requires e == PutTime(i, "exp", now, Offset(claims, "exp", d.duration))
    ensures TimeTyped(e, "exp")
  {
    if Offset(claims, "exp", d.duration).None? {
      NamedKeeps(claims, d, "exp");
      GetPutOther(ms, "iat", Integer(now), "exp");
      TimeTypedKept(claims, i, "exp");
    }
    PutTimeTyped(i, "exp", now, Offset(claims, "exp", d.duration));
  }

  lemma NotBeforeTyped(ms: seq<Member>, claims: seq<Member>, d: Defaults, now: int, i: seq<Member>, e: seq<Member>)
    requires TimesTyped(claims) && ms == Named(claims, d) && i == Put(ms, "iat", Integer(now))
    requires e == PutTime(i, "exp", now, Offset(claims, "exp", d.duration))
    ensures TimeTyped(Timed(ms, claims, d, now), "nbf")
  {
    if Offset(claims, "nbf", d.notBefore).None? {
      NamedKeeps(claims, d, "nbf");
      GetPutOther(ms, "iat", Integer(now), "nbf");
      PutTimeOther(i, "exp", now, Offset(claims, "exp", d.duration), "nbf");
      TimeTypedKept(claims, e, "nbf");
    }
    PutTimeTyped(e, "nbf", now, Offset(claims, "nbf", d.notBefore));
  }

  /** Setting a time claim leaves it an integer; keeping it keeps its type. */
  lemma PutTimeTyped(ms: seq<Member>, key: Bytes, now: int, offset: Option<int>)
    requires offset.None? ==> TimeTyped(ms, key)
    ensures TimeTyped(PutTime(ms, key, now, offset), key)
  {
    if offset.Some? {
      GetPutSame(ms, key, Integer(now + offset.value));
    }
  }

  lemma TimeTypedKept(ms: seq<Member>, other: seq<Member>, key: Bytes)
    requires TimeTyped(ms, key) && Get(other, key) == Get(ms, key)
    ensures TimeTyped(other, key)
  {
  }

  // ---------------------------------------------------------------------
  // The resolved payload is a valid object
  // ---------------------------------------------------------------------

  /** The resolved times fit in 64 bits. */
  predicate TimesFit(claims: seq<Member>, d: Defaults, now: int) {
    && IsInt64(now)
    && (Offset(claims, "exp", d.duration).Some? ==> IsInt64(now + Offset(claims, "exp", d.duration).value))
    && (Offset(claims, "nbf", d.notBefore).Some? ==> IsInt64(now + Offset(claims, "nbf", d.notBefore).value))
  }

  lemma PutDefaultValid(ms: seq<Member>, claims: seq<Member>, key: Bytes, value: Option<Value>)
    requires ValidMembers(ms) && (value.Some? ==> Valid(value.value))
    ensures ValidMembers(PutDefault(ms, claims, key, value))
  {
    if value.Some? && key !in Names(claims) {
      PutKeepsValid(ms, key, value.value);
    }
  }

  lemma PutTimeValid(ms: seq<Member>, key: Bytes, now: int, offset: Option<int>)
    requires ValidMembers(ms) && (offset.Some? ==> IsInt64(now + offset.value))
    ensures ValidMembers(PutTime(ms, key, now, offset))
  {
    if offset.Some? {
      PutKeepsValid(ms, key, Integer(now + offset.value));
    }
  }

  lemma AudiencesValid(aud: seq<Bytes>)
    ensures Audiences(aud).Some? ==> Valid(Audiences(aud).value)
  {
    if |aud| > 1 {
      var v := AudienceValue(aud);
      assert forall k | 0 <= k < |v.elems| :: Valid(v.elems[k]);
    }
  }

  lemma NamedValid(claims: seq<Member>, d: Defaults)
    requires ValidMembers(claims)
    ensures ValidMembers(Named(claims, d))
  {
    var a := PutDefault(claims, claims, "iss", NonEmpty(d.iss));
    var b := PutDefault(a, claims, "sub", NonEmpty(d.sub));
    PutDefaultValid(claims, claims, "iss", NonEmpty(d.iss));
    PutDefaultValid(a, claims, "sub", NonEmpty(d.sub));
    AudiencesValid(d.aud);
    PutDefaultValid(b, claims, "aud", Audiences(d.aud));
  }

  /** Resolving a valid claims set whose times fit in 64 bits gives a valid object. */
  lemma ResolveValid(claims: seq<Member>, d: Defaults, now: int, jti: Bytes)
    requires ValidMembers(claims) && TimesFit(claims, d, now)
    ensures ValidMembers(Resolve(claims, d, now, jti))
  {
    var ms := Named(claims, d);
    NamedValid(claims, d);
    var i := Put(ms, "iat", Integer(now));
    PutKeepsValid(ms, "iat", Integer(now));
    var e := PutTime(i, "exp", now, Offset(claims, "exp", d.duration));
    PutTimeValid(i, "exp", now, Offset(claims, "exp", d.duration));
    PutTimeValid(e, "nbf", now, Offset(claims, "nbf", d.notBefore));
    PutKeepsValid(Timed(ms, claims, d, now), "jti", String(jti));
  }

  // ---------------------------------------------------------------------
  // decode(sign(claims))
  // ---------------------------------------------------------------------

  /**
   * What `sign` emits for a claims set, `decode` accepts within the time
   * window and returns as the resolved payload (whose claims
   * `ResolveStamps`, `ExpiryFromDuration` and `ResolveKeepsClaims`
   * describe).
   */
  lemma SignThenDecode(f: JwtFactory, claims: seq<Member>, now: int, jti: Bytes, signer: Jwa.Signer,
                       payload: seq<Member>, later: int)
    requires ValidMembers(claims) && TimesFit(claims, f.Settings(), now) && TimesTyped(claims)
    requires payload == Resolve(claims, f.Settings(), now, jti)
    requires f.registry.MakeSigner(f.alg, f.alg, f.signKey) == Ok(signer)
    requires f.registry.MakeVerifier(f.alg, f.alg, f.verifyKey).Ok?
    requires Jwa.Pairs(signer, f.registry.MakeVerifier(f.alg, f.alg, f.verifyKey).value)
    requires signer.Sign(SigningInput(Header(f.alg), payload)) != []
    requires !Expired(payload, later) && !Early(payload, later)
    ensures f.Decode(Token(Header(f.alg), payload, signer), later) == Ok(payload)
  {
    ResolveValid(claims, f.Settings(), now, jti);
    ResolveTimesTyped(claims, f.Settings(), now, jti);
    DecodeSigned(f, payload, signer, later);
  }

  /**
   * The same round trip run through the factory's methods: `sign` mints
   * the next identifier and `decode` returns a claims set holding the
   * resolved payload.
   */
  method SignAndDecode(f: JwtFactory, claims: Jwt, now: int, later: int) returns (token: Bytes, decoded: Jwt)
    requires claims.Valid() && f.Valid()
    requires ValidMembers(claims.payload) && TimesFit(claims.payload, f.Settings(), now) && TimesTyped(claims.payload)
    requires f.registry.MakeSigner(f.alg, f.alg, f.signKey).Ok?
    requires f.registry.MakeVerifier(f.alg, f.alg, f.verifyKey).Ok?
    requires Jwa.Pairs(f.registry.MakeSigner(f.alg, f.alg, f.signKey).value,
                       f.registry.MakeVerifier(f.alg, f.alg, f.verifyKey).value)
    requires var payload := Resolve(claims.payload, f.Settings(), now, Decimal(f.ids.next));
      && f.registry.MakeSigner(f.alg, f.alg, f.signKey).value.Sign(SigningInput(Header(f.alg), payload)) != []
      && !Expired(payload, later) && !Early(payload, later)
    modifies f.ids
    ensures fresh(decoded) && decoded.Valid()
    ensures decoded.payload == Resolve(claims.payload, f.Settings(), now, Decimal(old(f.ids.next)))
  {
    var jti := Decimal(f.ids.next);
    var signer := f.registry.MakeSigner(f.alg, f.alg, f.signKey).value;
    var payload := Resolve(claims.payload, f.Settings(), now, jti);
    var signed := f.Sign(claims, now);
    assert signed == Ok(Token(Header(f.alg), payload, signer));
    token := signed.value;
    SignThenDecode(f, claims.payload, now, jti, signer, payload, later);
    ResolveClaimsValid(claims.payload, f.Settings(), now, jti);
    var r := f.DecodeJwt(token, later);
    decoded := r.value;
  }
}
