/**
 * The JSON Web Algorithms registry (RFC 7518): key holders bound to an
 * algorithm name, a key name and key material; signers and verifiers built
 * from them; and the factory that maps algorithm names to signer and
 * verifier factories, with the set of names accepted for signing.
 *
 * The cryptography behind an algorithm is an oracle: a signer factory
 * carries a signing function and a verifier factory an acceptance
 * predicate, both of the key and the data, and nothing is assumed about
 * either beyond what a caller states (see `Pairs`).
 */
module Jwa {
  import opened Text
  import opened Results

  datatype JwaError =
    | UnknownSigner(alg: Bytes)
    | SigningNotAccepted(alg: Bytes)
    | UnknownVerifier(alg: Bytes)
    | SignatureInvalid

  /** `JWASignerFact`: what the signers of one algorithm compute from their key and the data. */
  datatype SignerFact = SignerFact(sign: (Bytes, Bytes) -> Bytes)

  /** `JWAVerifierFact`: which signatures the verifiers of one algorithm accept for their key and the data. */
  datatype VerifierFact = VerifierFact(accepts: (Bytes, Bytes, Bytes) -> bool)

  /**
   * `JWASigner`: a key holder (`alg`, `name`, `key`, set once by the
   * constructor and only read afterwards) that signs.
   */
  datatype Signer = Signer(alg: Bytes, name: Bytes, key: Bytes, fact: SignerFact)
  {
    function Sign(data: Bytes): (sig: Bytes)
    {
      fact.sign(key, data)
    }

    /** `clone`: a holder bound to the same algorithm, name and key, signing alike. */
    function Clone(): (c: Signer)
      ensures c.alg == alg && c.name == name && c.key == key
      ensures forall data :: c.Sign(data) == Sign(data)
    {
      Signer(alg, name, key, fact)
    }
  }

  /** `JWAVerifier`: a key holder that verifies. */
  datatype Verifier = Verifier(alg: Bytes, name: Bytes, key: Bytes, fact: VerifierFact)
  {
    /**
     * `verify` returns nothing: it passes when the oracle accepts the
     * signature and otherwise fails with `SignatureInvalid`, never with a
     * value a caller could ignore.
     */
    function Verify(data: Bytes, signature: Bytes): (r: Outcome<JwaError>)
      ensures r == Pass <==> fact.accepts(key, data, signature)
      ensures r != Pass ==> r == Fail(SignatureInvalid)
    {
      if fact.accepts(key, data, signature) then Pass else Fail(SignatureInvalid)
    }

    function Clone(): (c: Verifier)
      ensures c.alg == alg && c.name == name && c.key == key
      ensures forall data, signature :: c.Verify(data, signature) == Verify(data, signature)
    {
      Verifier(alg, name, key, fact)
    }
  }

  /** A signer and a verifier that belong together: every signature of the one passes the other. */
  ghost predicate Pairs(s: Signer, v: Verifier) {
    s.alg == v.alg && forall data :: v.fact.accepts(v.key, data, s.fact.sign(s.key, data))
  }

  /** What a paired signer signs, its verifier passes. */
  lemma SignThenVerify(s: Signer, v: Verifier, data: Bytes)
    requires Pairs(s, v)
    ensures v.Verify(data, s.Sign(data)) == Pass
  {
  }

  /**
   * A verifier that refuses everything but the signer's own signatures:
   * for each input it accepts at most the one signature the signer makes.
   */
  ghost predicate Sound(s: Signer, v: Verifier) {
    forall data, signature :: v.fact.accepts(v.key, data, signature) ==> signature == s.fact.sign(s.key, data)
  }

  /**
   * A signer whose signatures tell its inputs apart: two inputs signed
   * alike under its key are the same input.
   */
  ghost predicate Binding(s: Signer) {
    forall x, y :: s.fact.sign(s.key, x) == s.fact.sign(s.key, y) ==> x == y
  }

  /**
   * A verifier sound for a binding signer fails the signature made for one
   * input when it is presented with any other input.
   */
  lemma OtherInputFails(s: Signer, v: Verifier, signed: Bytes, presented: Bytes)
    requires Sound(s, v) && Binding(s) && signed != presented
    ensures v.Verify(presented, s.Sign(signed)) == Fail(SignatureInvalid)
  {
  }

  /** A sound verifier fails every signature other than the signer's. */
  lemma OtherSignatureFails(s: Signer, v: Verifier, data: Bytes, signature: Bytes)
    requires Sound(s, v) && signature != s.Sign(data)
    ensures v.Verify(data, signature) == Fail(SignatureInvalid)
  {
  }

  /**
   * `JWAFactory` with its `Maps`: the signer factories, the verifier
   * factories and the algorithm names accepted for signing. Registration
   * replaces the entry for a name; a name may be registered for verifying
   * only, so that `makeSigner` refuses it.
   */
  class JwaFactory {
    var signAccept: set<Bytes>
    var signerFacts: map<Bytes, SignerFact>
    var verifierFacts: map<Bytes, VerifierFact>

    constructor (accept: set<Bytes>)
      ensures signAccept == accept && signerFacts == map[] && verifierFacts == map[]
    {
      signAccept := accept;
      signerFacts := map[];
      verifierFacts := map[];
    }

    /** `registerSignerFact`: installs or replaces the signer factory of `alg`, and nothing else. */
    method RegisterSignerFact(alg: Bytes, fact: SignerFact)
      modifies this
      ensures signerFacts == old(signerFacts)[alg := fact]
      ensures verifierFacts == old(verifierFacts) && signAccept == old(signAccept)
    {
      signerFacts := signerFacts[alg := fact];
    }

    /** `registerVerifierFact`: installs or replaces the verifier factory of `alg`, and nothing else. */
    method RegisterVerifierFact(alg: Bytes, fact: VerifierFact)
      modifies this
      ensures verifierFacts == old(verifierFacts)[alg := fact]
      ensures signerFacts == old(signerFacts) && signAccept == old(signAccept)
    {
      verifierFacts := verifierFacts[alg := fact];
    }

    /**
     * `makeSigner`: a signer bound to the key, from the factory of `alg`,
     * when `alg` has one and is accepted for signing; otherwise an error
     * naming the reason.
     */
    function MakeSigner(alg: Bytes, name: Bytes, key: Bytes): (r: Result<Signer, JwaError>)
      reads this
      ensures r.Ok? <==> alg in signerFacts && alg in signAccept
      ensures r.Ok? ==> r.value.alg == alg && r.value.name == name && r.value.key == key
      ensures r.Ok? ==> forall data :: r.value.Sign(data) == signerFacts[alg].sign(key, data)
      ensures alg !in signerFacts ==> r == Err(UnknownSigner(alg))
      ensures alg in signerFacts && alg !in signAccept ==> r == Err(SigningNotAccepted(alg))
    {
      if alg !in signerFacts then Err(UnknownSigner(alg))
      else if alg !in signAccept then Err(SigningNotAccepted(alg))
      else Ok(Signer(alg, name, key, signerFacts[alg]))
    }

    /** `makeVerifier`: a verifier bound to the key, from the factory of `alg`, when it has one. */
    function MakeVerifier(alg: Bytes, name: Bytes, key: Bytes): (r: Result<Verifier, JwaError>)
      reads this
      ensures r.Ok? <==> alg in verifierFacts
      ensures r.Ok? ==> r.value.alg == alg && r.value.name == name && r.value.key == key
      ensures r.Ok? ==> forall data, sig :: r.value.Verify(data, sig).Pass? <==> verifierFacts[alg].accepts(key, data, sig)
      ensures r.Err? ==> r == Err(UnknownVerifier(alg))
    {
      if alg !in verifierFacts then Err(UnknownVerifier(alg))
      else Ok(Verifier(alg, name, key, verifierFacts[alg]))
    }
  }

  /**
   * Registering a signer factory for an accepted name makes `makeSigner`
   * succeed for it with that factory, and leaves the verifiers as they were.
   */
  method RegisterThenMakeSigner(f: JwaFactory, alg: Bytes, fact: SignerFact, name: Bytes, key: Bytes)
    returns (r: Result<Signer, JwaError>)
    requires alg in f.signAccept
    modifies f
    ensures r.Ok? && r.value.alg == alg && r.value.key == key
    ensures forall data :: r.value.Sign(data) == fact.sign(key, data)
    ensures forall a, n, k :: f.MakeVerifier(a, n, k) == old(f.MakeVerifier(a, n, k))
  {
    f.RegisterSignerFact(alg, fact);
    r := f.MakeSigner(alg, name, key);
  }
}
