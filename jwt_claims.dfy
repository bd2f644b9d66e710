/**
 * The claims set of a JSON Web Token (RFC 7519): one JSON object, the
 * payload, with setters for the registered claims of section 4.1 and
 * get/add for any other claim. Values of `iss`, `sub` and `aud` are
 * StringOrURI values (section 2): a value holding a `:` must be a URI.
 */
module JwtClaims {
  import opened Text
  import opened Results
  import opened JsonValues

  datatype ClaimError =
    | NotStringOrUri(value: Bytes)
    | AudienceNotStringOrArray
    | ClaimNotFound(name: Bytes)
    | RegisteredClaim(name: Bytes)

  /** The names of section 4.1 of RFC 7519, which only the setters and `sign` write. */
  predicate Registered(name: Bytes) {
    name in {"iss", "sub", "aud", "iat", "exp", "nbf", "jti"}
  }

  // ---------------------------------------------------------------------
  // StringOrURI
  // ---------------------------------------------------------------------

  predicate IsAlpha(c: Byte) { ('A' <= c <= 'Z') || ('a' <= c <= 'z') }

  /** `scheme = ALPHA *( ALPHA / DIGIT / "+" / "-" / "." )`, section 3.1 of RFC 3986. */
  predicate IsScheme(t: Bytes) {
    && |t| > 0 && IsAlpha(t[0])
    && forall k | 1 <= k < |t| :: IsAlpha(t[k]) || IsDigit(t[k]) || t[k] in "+-."
  }

  /**
   * `verifyStringOrURI`: any text without a `:` is a string; a text with
   * one must read as an absolute URI, which starts with a scheme followed
   * by the first `:`.
   */
  predicate IsStringOrUri(t: Bytes) {
    ':' in t ==> IsScheme(t[..IndexOf(t, ':')])
  }

  function CheckStringOrUri(t: Bytes): (r: Outcome<ClaimError>)
    ensures r == Pass <==> IsStringOrUri(t)
    ensures r != Pass ==> r == Fail(NotStringOrUri(t))
  {
    if IsStringOrUri(t) then Pass else Fail(NotStringOrUri(t))
  }

  lemma NoColonIsString(t: Bytes)
    requires ':' !in t
    ensures IsStringOrUri(t)
  {
  }

  /** A colon at the very start leaves no scheme, so the text is refused. */
  lemma LeadingColonRefused(t: Bytes)
    requires |t| > 0 && t[0] == ':'
    ensures !IsStringOrUri(t)
  {
    assert IndexOf(t, ':') == 0;
  }

  /** A scheme, a colon and anything after it is a URI. */
  lemma SchemeIsUri(scheme: Bytes, rest: Bytes)
    requires IsScheme(scheme)
    ensures IsStringOrUri(scheme + ":" + rest)
  {
    assert forall k | 0 <= k < |scheme| :: scheme[k] != ':';
    IndexOfAfter(scheme, ':', rest);
    assert (scheme + ":" + rest)[..|scheme|] == scheme;
  }

  // ---------------------------------------------------------------------
  // Audience
  // ---------------------------------------------------------------------

  /**
   * The `aud` claim after adding one audience: absent becomes the string,
   * a string becomes a two-element array, an array grows by one; any other
   * kind of value is refused.
   */
  function WithAudience(ms: seq<Member>, aud: Bytes): (r: Result<seq<Member>, ClaimError>)
    ensures r.Err? <==> match Get(ms, "aud") { case Some(v) => !v.String? && !v.Array? case None => false }
  {
    match Get(ms, "aud")
    case None => Ok(Put(ms, "aud", String(aud)))
    case Some(String(first)) => Ok(Put(ms, "aud", Array([String(first), String(aud)])))
    case Some(Array(es)) => Ok(Put(ms, "aud", Array(es + [String(aud)])))
    case Some(_) => Err(AudienceNotStringOrArray)
  }

  /** Two audiences added to a claims set without one give the array of both, in order. */
  lemma AudiencesAccumulate(ms: seq<Member>, a: Bytes, b: Bytes)
    requires "aud" !in Names(ms)
    ensures WithAudience(ms, a).Ok?
    ensures WithAudience(WithAudience(ms, a).value, b).Ok?
    ensures Get(WithAudience(WithAudience(ms, a).value, b).value, "aud") == Some(Array([String(a), String(b)]))
  {
    var once := Put(ms, "aud", String(a));
    GetPutSame(ms, "aud", String(a));
    GetPutSame(once, "aud", Array([String(a), String(b)]));
  }

  /** Adding an audience touches no other claim. */
  lemma AudienceKeepsOthers(ms: seq<Member>, aud: Bytes, name: Bytes)
    requires name != "aud" && WithAudience(ms, aud).Ok?
    ensures Get(WithAudience(ms, aud).value, name) == Get(ms, name)
  {
    match Get(ms, "aud")
    case None => GetPutOther(ms, "aud", String(aud), name);
    case Some(String(first)) => GetPutOther(ms, "aud", Array([String(first), String(aud)]), name);
    case Some(Array(es)) => GetPutOther(ms, "aud", Array(es + [String(aud)]), name);
  }

  // ---------------------------------------------------------------------
  // The StringOrURI invariant
  // ---------------------------------------------------------------------

  /** `key` is absent or holds a StringOrURI string. */
  predicate StringOrUriClaim(ms: seq<Member>, key: Bytes) {
    match Get(ms, key)
    case None => true
    case Some(v) => v.String? && IsStringOrUri(v.s)
  }

  /** `aud` is absent, a StringOrURI string, or an array of StringOrURI strings. */
  predicate AudienceClaim(ms: seq<Member>) {
    match Get(ms, "aud")
    case None => true
    case Some(v) =>
      || (v.String? && IsStringOrUri(v.s))
      || (v.Array? && forall k | 0 <= k < |v.elems| :: v.elems[k].String? && IsStringOrUri(v.elems[k].s))
  }

  /** The invariant of a claims set: `iss`, `sub` and every audience are StringOrURI values. */
  predicate ClaimsValid(ms: seq<Member>) {
    StringOrUriClaim(ms, "iss") && StringOrUriClaim(ms, "sub") && AudienceClaim(ms)
  }

  /** A claim whose name is not registered leaves the invariant as it was. */
  lemma PutOtherKeepsValid(ms: seq<Member>, name: Bytes, v: Value)
    requires !Registered(name)
    ensures ClaimsValid(Put(ms, name, v)) == ClaimsValid(ms)
  {
    GetPutOther(ms, name, v, "iss");
    GetPutOther(ms, name, v, "sub");
    GetPutOther(ms, name, v, "aud");
  }

  /** Setting `exp` or `nbf` leaves the invariant as it was. */
  lemma PutOtherKeepsValidTime(ms: seq<Member>, key: Bytes, n: int)
    requires key == "exp" || key == "nbf"
    ensures ClaimsValid(Put(ms, key, Integer(n))) == ClaimsValid(ms)
  {
    GetPutOther(ms, key, Integer(n), "iss");
    GetPutOther(ms, key, Integer(n), "sub");
    GetPutOther(ms, key, Integer(n), "aud");
  }

  /** Setting `iss` or `sub` to a StringOrURI keeps the invariant. */
  lemma SetStringOrUriKeepsValid(ms: seq<Member>, key: Bytes, t: Bytes)
    requires ClaimsValid(ms) && (key == "iss" || key == "sub") && IsStringOrUri(t)
    ensures ClaimsValid(Put(ms, key, String(t)))
  {
    GetPutSame(ms, key, String(t));
    GetPutOther(ms, key, String(t), if key == "iss" then "sub" else "iss");
    GetPutOther(ms, key, String(t), "aud");
  }

  /**
   * On a valid claims set, adding a StringOrURI audience always succeeds
   * and keeps the invariant.
   */
  lemma WithAudienceKeepsValid(ms: seq<Member>, aud: Bytes)
    requires ClaimsValid(ms) && IsStringOrUri(aud)
    ensures WithAudience(ms, aud).Ok? && ClaimsValid(WithAudience(ms, aud).value)
  {
    var next := match Get(ms, "aud") {
      case None => String(aud)
      case Some(String(first)) => Array([String(first), String(aud)])
      case Some(Array(es)) => Array(es + [String(aud)])
      case Some(_) => Null
    };
    assert WithAudience(ms, aud) == Ok(Put(ms, "aud", next));
    GetPutSame(ms, "aud", next);
    GetPutOther(ms, "aud", next, "iss");
    GetPutOther(ms, "aud", next, "sub");
    if next.Array? {
      forall k | 0 <= k < |next.elems| ensures next.elems[k].String? && IsStringOrUri(next.elems[k].s) {
        if k == |next.elems| - 1 {
          assert next.elems[k] == String(aud);
        } else if Get(ms, "aud").value.Array? {
          assert next.elems[k] == Get(ms, "aud").value.elems[k];
        }
      }
    }
  }

  // ---------------------------------------------------------------------
  // The claims set
  // ---------------------------------------------------------------------

  /**
   * `JWT`: owns its payload object. `setDuration` and `setNotBefore`
   * record offsets in seconds under `exp` and `nbf`; signing turns them
   * into times.
   */
  class Jwt {
    var payload: seq<Member>

    /** `iss`, `sub` and every audience are StringOrURI values. */
    predicate Valid()
      reads this
    {
      ClaimsValid(payload)
    }

    /** The factory's constructor from a payload object. */
    constructor (payload: seq<Member>)
      ensures this.payload == payload
    {
      this.payload := payload;
    }

    /** Copy construction: a new claims set with an equal payload of its own. */
    constructor Copy(other: Jwt)
      ensures payload == other.payload
    {
      payload := other.payload;
    }

    /** Assignment: this claims set takes an equal copy of the other's payload. */
    method Assign(other: Jwt)
      modifies this
      ensures payload == old(other.payload)
    {
      payload := other.payload;
    }

    /** A registered claim holding a StringOrURI; a refused value leaves the payload as it was. */
    method SetStringOrUri(name: Bytes, value: Bytes) returns (r: Outcome<ClaimError>)
      modifies this
      ensures r == CheckStringOrUri(value)
      ensures r == Pass ==> payload == Put(old(payload), name, String(value))
      ensures r != Pass ==> payload == old(payload)
    {
      r := CheckStringOrUri(value);
      if r == Pass {
        payload := Put(payload, name, String(value));
      }
    }

    method SetIssuer(iss: Bytes) returns (r: Outcome<ClaimError>)
      modifies this
      ensures r == CheckStringOrUri(iss)
      ensures r == Pass ==> payload == Put(old(payload), "iss", String(iss))
      ensures r != Pass ==> payload == old(payload)
      ensures old(Valid()) ==> Valid()
    {
      if Valid() && IsStringOrUri(iss) {
        SetStringOrUriKeepsValid(payload, "iss", iss);
      }
      r := SetStringOrUri("iss", iss);
    }

    method SetSubject(sub: Bytes) returns (r: Outcome<ClaimError>)
      modifies this
      ensures r == CheckStringOrUri(sub)
      ensures r == Pass ==> payload == Put(old(payload), "sub", String(sub))
      ensures r != Pass ==> payload == old(payload)
      ensures old(Valid()) ==> Valid()
    {
      if Valid() && IsStringOrUri(sub) {
        SetStringOrUriKeepsValid(payload, "sub", sub);
      }
      r := SetStringOrUri("sub", sub);
    }

    /** `addAudience`: checks the value, then accumulates it into `aud`. */
    method AddAudience(aud: Bytes) returns (r: Outcome<ClaimError>)
      modifies this
      ensures !IsStringOrUri(aud) ==> r == Fail(NotStringOrUri(aud)) && payload == old(payload)
      ensures IsStringOrUri(aud) ==> match WithAudience(old(payload), aud) {
        case Ok(ms) => r == Pass && payload == ms
        case Err(e) => r == Fail(e) && payload == old(payload)
      }
      ensures old(Valid()) ==> Valid() && r == CheckStringOrUri(aud)
    {
      if Valid() && IsStringOrUri(aud) {
        WithAudienceKeepsValid(payload, aud);
      }
      r := CheckStringOrUri(aud);
      if r == Pass {
        match WithAudience(payload, aud)
        case Ok(ms) => payload := ms;
        case Err(e) => r := Fail(e);
      }
    }

    method SetDuration(seconds: int)
      requires IsInt64(seconds)
      modifies this
      ensures payload == Put(old(payload), "exp", Integer(seconds))
      ensures old(Valid()) ==> Valid()
    {
      PutOtherKeepsValidTime(payload, "exp", seconds);
      payload := Put(payload, "exp", Integer(seconds));
    }

    method SetNotBefore(seconds: int)
      requires IsInt64(seconds)
      modifies this
      ensures payload == Put(old(payload), "nbf", Integer(seconds))
      ensures old(Valid()) ==> Valid()
    {
      PutOtherKeepsValidTime(payload, "nbf", seconds);
      payload := Put(payload, "nbf", Integer(seconds));
    }

    /**
     * `addClaim`: inserts a claim that is not registered, or replaces the
     * value of one with that name; a registered name is refused and the
     * payload is unchanged, so the setters stay the only way to write it.
     */
    method AddClaim(name: Bytes, value: Value) returns (r: Outcome<ClaimError>)
      modifies this
      ensures r == Pass <==> !Registered(name)
      ensures r != Pass ==> r == Fail(RegisteredClaim(name)) && payload == old(payload)
      ensures r == Pass ==> payload == Put(old(payload), name, value)
      ensures old(Valid()) ==> Valid()
    {
      if Registered(name) {
        r := Fail(RegisteredClaim(name));
      } else {
        PutOtherKeepsValid(payload, name, value);
        payload := Put(payload, name, value);
        r := Pass;
      }
    }

    /** `getClaim`: the value of the claim, or `ClaimNotFound` when there is none. */
    function GetClaim(name: Bytes): (r: Result<Value, ClaimError>)
      reads this
      ensures r.Ok? <==> name in Names(payload)
      ensures r.Err? ==> r == Err(ClaimNotFound(name))
    {
      match Get(payload, name)
      case Some(v) => Ok(v)
      case None => Err(ClaimNotFound(name))
    }
  }

  /**
   * `getClaim` after `addClaim` on a claims set: the added name gives the
   * added value, or what it gave before when the name is registered and
   * refused, and any other name gives what it gave before.
   */
  method AddThenGet(c: Jwt, name: Bytes, value: Value, other: Bytes)
    returns (added: Result<Value, ClaimError>, kept: Result<Value, ClaimError>)
    requires other != name
    modifies c
    ensures added == if Registered(name) then old(c.GetClaim(name)) else Ok(value)
    ensures kept == old(c.GetClaim(other))
  {
    GetPutSame(c.payload, name, value);
    GetPutOther(c.payload, name, value, other);
    var _ := c.AddClaim(name, value);
    added := c.GetClaim(name);
    kept := c.GetClaim(other);
  }

  /**
   * A copy is independent: adding a claim to the copy leaves the original's
   * payload as it was, and the copy holds the original's claims plus the new one.
   */
  method CopyThenAddClaim(original: Jwt, name: Bytes, value: Value) returns (copy: Jwt)
    ensures fresh(copy) && copy != original
    ensures copy.payload == if Registered(name) then original.payload else Put(original.payload, name, value)
    ensures original.payload == old(original.payload)
  {
    copy := new Jwt.Copy(original);
    var _ := copy.AddClaim(name, value);
  }

  /** Adding two audiences to a fresh claims set gives `aud` the array of both. */
  method AddTwoAudiences(j: Jwt, a: Bytes, b: Bytes) returns (r1: Outcome<ClaimError>, r2: Outcome<ClaimError>)
    requires IsStringOrUri(a) && IsStringOrUri(b) && "aud" !in Names(j.payload)
    modifies j
    ensures r1 == Pass && r2 == Pass
    ensures j.GetClaim("aud") == Ok(Array([String(a), String(b)]))
  {
    AudiencesAccumulate(j.payload, a, b);
    r1 := j.AddAudience(a);
    r2 := j.AddAudience(b);
  }
}
