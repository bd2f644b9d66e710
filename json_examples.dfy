/**
 * The accept/reject table of the JSON unit tests, stated on the parser's
 * specification: what each input parses to, what `toJSON` writes for it, and
 * which error each malformed input raises.
 */
module JsonExamples {
  import opened Text
  import opened Results
  import opened JsonValues
  import opened JsonGrammar
  import opened JsonRoundTrip

  // ---------------------------------------------------------------------
  // Texts made of plain bytes
  // ---------------------------------------------------------------------

  predicate AllPlain(x: Bytes) {
    forall k | 0 <= k < |x| :: IsPlain(x[k])
  }

  function Quoted(x: Bytes): Bytes {
    "\"" + x + "\""
  }

  /** A string of plain bytes is written between quotes, unchanged. */
  lemma PlainQuoted(x: Bytes)
    requires AllPlain(x)
    ensures StringJson(x) == Quoted(x)
  {
    EscapePlain(x);
  }

  lemma AtPrefix(t: Bytes, u: Bytes)
    ensures At(t + u, 0, t)
  {
  }

  // ---------------------------------------------------------------------
  // Trailing bytes and unclosed containers
  // ---------------------------------------------------------------------

  /**
   * A rendered value followed by a byte that is not whitespace: with
   * consume_all the document is rejected at that byte, without it the value
   * is returned.
   */
  lemma TrailingAfterValue(v: Value, s: Bytes)
    requires Valid(v) && At(s, 0, ToJson(v))
    requires |ToJson(v)| < |s| && !IsWhitespace(s[|ToJson(v)|]) && Delimited(s, |ToJson(v)|)
    ensures ParseDocument(s, true) == Err(TrailingBytes(|ToJson(v)|))
    ensures ParseDocument(s, false) == Ok(v)
  {
    ValueRoundTrip(v, ToJson(v), s, 0);
    SkipNone(s, |ToJson(v)|);
  }

  /** A rendered object followed by a byte that is not whitespace is rejected at that byte. */
  lemma TrailingAfterObject(ms: seq<Member>, s: Bytes)
    requires ValidMembers(ms) && At(s, 0, ToJson(Object(ms)))
    requires |ToJson(Object(ms))| < |s| && !IsWhitespace(s[|ToJson(Object(ms))|])
    ensures ParseObjectDocument(s) == Err(TrailingBytes(|ToJson(Object(ms))|))
  {
    ObjectRoundTrip(ms, s, 0);
    SkipNone(s, |ToJson(Object(ms))|);
  }

  /** A rendered array followed by a byte that is not whitespace is rejected at that byte. */
  lemma TrailingAfterArray(es: seq<Value>, s: Bytes)
    requires Valid(Array(es)) && At(s, 0, ToJson(Array(es)))
    requires |ToJson(Array(es))| < |s| && !IsWhitespace(s[|ToJson(Array(es))|])
    ensures ParseArrayDocument(s) == Err(TrailingBytes(|ToJson(Array(es))|))
  {
    ArrayRoundTrip(es, s, 0);
    SkipNone(s, |ToJson(Array(es))|);
  }

  /** An object whose one member is complete but whose `}` is missing fails at the end. */
  lemma UnclosedObject(x: Bytes, v: Value, s: Bytes)
    requires Valid(v) && s == "{" + StringJson(x) + ":" + ToJson(v)
    ensures ParseObjectDocument(s) == Err(ExpectedRightBrace(|s|))
  {
    var k := 1 + |StringJson(x)|;
    assert At(s, 1, StringJson(x));
    assert s[k] == ':';
    assert At(s, k + 1, ToJson(v));
    UnclosedObjectAt(x, v, s, k);
  }

  lemma UnclosedObjectAt(x: Bytes, v: Value, s: Bytes, k: nat)
    requires Valid(v) && 0 < k < |s| && s[0] == '{'
    requires k == 1 + |StringJson(x)| && At(s, 1, StringJson(x)) && s[k] == ':'
    requires At(s, k + 1, ToJson(v)) && |s| == k + 1 + |ToJson(v)|
    ensures ParseObjectDocument(s) == Err(ExpectedRightBrace(|s|))
  {
    StringRoundTrip(x, s, 1);
    SkipNone(s, 0);
    SkipNone(s, 1);
    ObjectOpen(s, 0);
    NameThenValue(s, 1, [], x, k);
    UnclosedValue(x, v, s, k);
  }

  /** The colon at `k` and a value running to the end leave the object unclosed. */
  lemma UnclosedValue(x: Bytes, v: Value, s: Bytes, k: nat)
    requires Valid(v) && k < |s| && s[k] == ':'
    requires At(s, k + 1, ToJson(v)) && |s| == k + 1 + |ToJson(v)|
    ensures MemberValue(s, x, k, []) == Err(ExpectedRightBrace(|s|))
  {
    SkipNone(s, k);
    ValueRoundTrip(v, ToJson(v), s, k + 1);
    MemberSeparatorStep(s, x, k, [], v, |s|);
  }

  /** An array of two complete elements whose `]` is missing fails at the end. */
  lemma UnclosedArray(a: Value, b: Value, s: Bytes)
    requires Valid(a) && Valid(b) && s == "[" + ToJson(a) + "," + ToJson(b)
    ensures ParseArrayDocument(s) == Err(ExpectedRightBracket(|s|))
  {
    var d := 1 + |ToJson(a)|;
    assert At(s, 1, ToJson(a));
    assert s[d] == ',';
    assert At(s, d + 1, ToJson(b));
    UnclosedArrayAt(a, b, s, d);
  }

  lemma UnclosedArrayAt(a: Value, b: Value, s: Bytes, d: nat)
    requires Valid(a) && Valid(b) && 0 < d < |s| && s[0] == '['
    requires d == 1 + |ToJson(a)| && At(s, 1, ToJson(a)) && s[d] == ','
    requires At(s, d + 1, ToJson(b)) && |s| == d + 1 + |ToJson(b)|
    ensures ParseArrayDocument(s) == Err(ExpectedRightBracket(|s|))
  {
    FirstOfTwo(a, s, d);
    ValueRoundTrip(b, ToJson(b), s, d + 1);
    assert SkipWhitespace(s, |s|) == |s|;
    ElementsStep(s, d + 1, [a]);
  }

  /** The first element of an array and the comma after it. */
  lemma FirstOfTwo(a: Value, s: Bytes, d: nat)
    requires Valid(a) && 0 < d < |s| && s[0] == '['
    requires d == 1 + |ToJson(a)| && At(s, 1, ToJson(a)) && s[d] == ','
    ensures ParseArray(s, 0) == Elements(s, d + 1, [a])
  {
    ToJsonStart(a);
    SkipNone(s, 0);
    SkipNone(s, 1);
    ArrayOpen(s, 0);
    ValueRoundTrip(a, ToJson(a), s, 1);
    assert [] + [a] == [a];
    ElementThenComma(s, 1, [], a, d, Elements(s, d + 1, [a]));
  }

  /** A member name followed by something other than a colon fails at that byte. */
  lemma MissingColon(x: Bytes, y: Bytes, s: Bytes)
    requires AllPlain(x) && s == "{" + Quoted(x) + Quoted(y)
    ensures ParseObjectDocument(s) == Err(ExpectedColon(|x| + 3))
  {
    PlainQuoted(x);
    var k := |x| + 3;
    assert At(s, 1, StringJson(x));
    assert s[k] == '"';
    MissingColonAt(x, s, k);
  }

  lemma MissingColonAt(x: Bytes, s: Bytes, k: nat)
    requires 0 < k < |s| && s[0] == '{' && k == 1 + |StringJson(x)| && At(s, 1, StringJson(x))
    requires s[k] != ':' && !IsWhitespace(s[k])
    ensures ParseObjectDocument(s) == Err(ExpectedColon(k))
  {
    StringRoundTrip(x, s, 1);
    SkipNone(s, 0);
    SkipNone(s, 1);
    ObjectOpen(s, 0);
    NameThenValue(s, 1, [], x, k);
    SkipNone(s, k);
    MemberValueStep(s, x, k, []);
  }

  // ---------------------------------------------------------------------
  // Objects: JSONObject::make, then toJSON
  // ---------------------------------------------------------------------

  lemma EmptyObject()
    ensures ParseObjectDocument("{}") == Ok(Object([]))
    ensures ToJson(Object([])) == "{}"
  {
  }

  /** `{"":[]}`: an empty name is a name like any other. */
  lemma EmptyNameEmptyArray(s: Bytes)
    requires s == "{\"\":[]}"
    ensures ParseObjectDocument(s) == Ok(Object([Member("", Array([]))]))
    ensures ToJson(Object([Member("", Array([]))])) == s
  {
    var ms := [Member("", Array([]))];
    EmptyNameEmptyArrayText(s, ms);
    ObjectDocumentRoundTrip(ms);
  }

  lemma EmptyNameEmptyArrayText(s: Bytes, ms: seq<Member>)
    requires s == "{\"\":[]}" && ms == [Member("", Array([]))]
    ensures ToJson(Object(ms)) == s
  {
    assert MemberJson(ms[0]) == "\"\":[]";
  }

  /** The rendering of an object with one plain string member. */
  lemma OneMemberJson(x: Bytes, y: Bytes)
    requires AllPlain(x) && AllPlain(y)
    ensures ToJson(Object([Member(x, String(y))])) == "{" + Quoted(x) + ":" + Quoted(y) + "}"
  {
    PlainQuoted(x);
    PlainQuoted(y);
    var m := Member(x, String(y));
    calc {
      ToJson(Object([m]));
      "{" + MemberJson(m) + "}";
      "{" + (Quoted(x) + ":" + Quoted(y)) + "}";
      "{" + Quoted(x) + ":" + Quoted(y) + "}";
    }
  }

  /** An object with one plain string member is read back and re-written unchanged. */
  lemma OneMemberObject(x: Bytes, y: Bytes, s: Bytes)
    requires AllPlain(x) && AllPlain(y) && s == "{" + Quoted(x) + ":" + Quoted(y) + "}"
    ensures ParseObjectDocument(s) == Ok(Object([Member(x, String(y))]))
    ensures ToJson(Object([Member(x, String(y))])) == s
  {
    OneMemberJson(x, y);
    ObjectDocumentRoundTrip([Member(x, String(y))]);
  }

  lemma NameValueText(s: Bytes)
    requires s == "{\"name\":\"value\"}"
    ensures s == "{" + Quoted("name") + ":" + Quoted("value") + "}"
  {
  }

  lemma NameValueObject(s: Bytes)
    requires s == "{\"name\":\"value\"}"
    ensures ParseObjectDocument(s) == Ok(Object([Member("name", String("value"))]))
    ensures ToJson(Object([Member("name", String("value"))])) == s
  {
    NameValueText(s);
    OneMemberObject("name", "value", s);
  }

  lemma ObjectRejects()
    ensures ParseObjectDocument("") == Err(UnexpectedEnd)
    ensures ParseObjectDocument("{") == Err(UnexpectedEnd)
    ensures ParseObjectDocument("}") == Err(ExpectedLeftBrace(0))
  {
  }

  lemma ObjectMissingColon(s: Bytes)
    requires s == "{\"name\"\"value\""
    ensures ParseObjectDocument(s) == Err(ExpectedColon(7))
  {
    var x: Bytes, y: Bytes := "name", "value";
    assert s == "{" + Quoted(x) + Quoted(y);
    MissingColon(x, y, s);
  }

  /** `{"x":"y"` without its closing brace. */
  lemma UnclosedOneMember(x: Bytes, y: Bytes, s: Bytes)
    requires AllPlain(x) && AllPlain(y) && s == "{" + Quoted(x) + ":" + Quoted(y)
    ensures ParseObjectDocument(s) == Err(ExpectedRightBrace(|s|))
  {
    PlainQuoted(x);
    PlainQuoted(y);
    UnclosedObject(x, String(y), s);
  }

  lemma UnclosedNameValueText(s: Bytes)
    requires s == "{\"name\":\"value\""
    ensures s == "{" + Quoted("name") + ":" + Quoted("value")
  {
  }

  lemma ObjectMissingRightBrace(s: Bytes)
    requires s == "{\"name\":\"value\""
    ensures ParseObjectDocument(s) == Err(ExpectedRightBrace(15))
  {
    UnclosedNameValueText(s);
    UnclosedOneMember("name", "value", s);
  }

  lemma ObjectTrailingBytes(t: Bytes, u: Bytes, s: Bytes)
    requires t == "{\"name\":\"value\"}" && u == "trailing" && s == t + u
    ensures ParseObjectDocument(s) == Err(TrailingBytes(16))
  {
    NameValueObject(t);
    NameValueValid();
    TrailingObjectText([Member("name", String("value"))], t, u, s);
  }

  lemma NameValueValid()
    ensures ValidMembers([Member("name", String("value"))])
  {
  }

  /** A rendered object followed by text that does not start with whitespace: rejected there. */
  lemma TrailingObjectText(ms: seq<Member>, t: Bytes, u: Bytes, s: Bytes)
    requires ValidMembers(ms) && t == ToJson(Object(ms)) && s == t + u && u != [] && !IsWhitespace(u[0])
    ensures ParseObjectDocument(s) == Err(TrailingBytes(|t|))
  {
    AtPrefix(t, u);
    assert s[|t|] == u[0];
    TrailingAfterObject(ms, s);
  }

  // ---------------------------------------------------------------------
  // Arrays: JSONArray::parse from position 0, or test_parse for the rejects
  // ---------------------------------------------------------------------

  lemma EmptyArray()
    ensures ParseArray("[]", 0) == Ok((Array([]), 2))
    ensures ToJson(Array([])) == "[]"
  {
  }

  /** The rendering of an array of two plain strings. */
  lemma TwoStringsJson(x: Bytes, y: Bytes)
    requires AllPlain(x) && AllPlain(y)
    ensures ToJson(Array([String(x), String(y)])) == "[" + Quoted(x) + "," + Quoted(y) + "]"
  {
    PlainQuoted(x);
    PlainQuoted(y);
    var es := [String(x), String(y)];
    assert es[1..] == [String(y)];
    calc {
      ToJson(Array(es));
      "[" + ElementsJson(es) + "]";
      "[" + (ToJson(es[0]) + "," + ElementsJson(es[1..])) + "]";
      "[" + (Quoted(x) + "," + Quoted(y)) + "]";
      "[" + Quoted(x) + "," + Quoted(y) + "]";
    }
  }

  /** An array of two plain strings is read back and re-written unchanged. */
  lemma TwoStrings(x: Bytes, y: Bytes, s: Bytes)
    requires AllPlain(x) && AllPlain(y) && s == "[" + Quoted(x) + "," + Quoted(y) + "]"
    ensures ParseArray(s, 0) == Ok((Array([String(x), String(y)]), |s|))
    ensures ToJson(Array([String(x), String(y)])) == s
  {
    TwoStringsJson(x, y);
    TwoStringsValid(x, y);
    WholeArray([String(x), String(y)], s);
  }

  lemma TwoStringsValid(x: Bytes, y: Bytes)
    ensures Valid(Array([String(x), String(y)]))
  {
    var es := [String(x), String(y)];
    assert forall k | 0 <= k < |es| :: es[k].String?;
  }

  /** A rendered array, as a whole text, is read back from position 0 to its end. */
  lemma WholeArray(es: seq<Value>, s: Bytes)
    requires Valid(Array(es)) && s == ToJson(Array(es))
    ensures ParseArray(s, 0) == Ok((Array(es), |s|))
  {
    AtWhole(s);
    ArrayRoundTrip(es, s, 0);
  }

  lemma NameValueArrayText(s: Bytes, x: Bytes, y: Bytes)
    requires x == "name" && y == "value" && s == "[\"name\",\"value\"]"
    ensures s == "[" + Quoted(x) + "," + Quoted(y) + "]"
  {
  }

  lemma NameValuePlain(x: Bytes, y: Bytes)
    requires x == "name" && y == "value"
    ensures AllPlain(x) && AllPlain(y)
  {
  }

  lemma NameValueArray(s: Bytes, x: Bytes, y: Bytes)
    requires x == "name" && y == "value" && s == "[\"name\",\"value\"]"
    ensures ParseArray(s, 0) == Ok((Array([String(x), String(y)]), |s|))
    ensures ToJson(Array([String(x), String(y)])) == s
  {
    NameValueArrayText(s, x, y);
    NameValuePlain(x, y);
    TwoStrings(x, y, s);
  }

  lemma ArrayRejects()
    ensures ParseArrayDocument("") == Err(UnexpectedEnd)
    ensures ParseArrayDocument("]") == Err(ExpectedLeftBracket(0))
    ensures ParseArrayDocument("[") == Err(UnexpectedEnd)
  {
  }

  /** `["x","y"` without its closing bracket. */
  lemma UnclosedTwoStrings(x: Bytes, y: Bytes, s: Bytes)
    requires AllPlain(x) && AllPlain(y) && s == "[" + Quoted(x) + "," + Quoted(y)
    ensures ParseArrayDocument(s) == Err(ExpectedRightBracket(|s|))
  {
    PlainQuoted(x);
    PlainQuoted(y);
    UnclosedArray(String(x), String(y), s);
  }

  lemma UnclosedNameNameText(s: Bytes)
    requires s == "[\"name\",\"name\""
    ensures s == "[" + Quoted("name") + "," + Quoted("name")
  {
  }

  lemma ArrayMissingRightBracket(s: Bytes)
    requires s == "[\"name\",\"name\""
    ensures ParseArrayDocument(s) == Err(ExpectedRightBracket(14))
  {
    UnclosedNameNameText(s);
    UnclosedTwoStrings("name", "name", s);
  }

  lemma NameNameArrayText(t: Bytes)
    requires t == "[\"name\",\"name\"]"
    ensures t == "[" + Quoted("name") + "," + Quoted("name") + "]"
  {
  }

  lemma ArrayTrailingBytes(t: Bytes, u: Bytes, s: Bytes)
    requires t == "[\"name\",\"name\"]" && u == "trailing" && s == t + u
    ensures ParseArrayDocument(s) == Err(TrailingBytes(15))
  {
    NameNameArrayText(t);
    TwoStringsJson("name", "name");
    AtPrefix(t, u);
    TrailingAfterArray([String("name"), String("name")], s);
  }

  // ---------------------------------------------------------------------
  // Scalars: JSONValue::test_parse, then toJSON
  // ---------------------------------------------------------------------

  lemma Literals()
    ensures ParseDocument("true", true) == Ok(Bool(true)) && ToJson(Bool(true)) == "true"
    ensures ParseDocument("false", true) == Ok(Bool(false)) && ToJson(Bool(false)) == "false"
  {
  }

  /** A quoted string of plain bytes is read back and re-written unchanged. */
  lemma PlainString(x: Bytes)
    requires AllPlain(x)
    ensures ParseDocument(Quoted(x), true) == Ok(String(x)) && ToJson(String(x)) == Quoted(x)
  {
    PlainQuoted(x);
    DocumentRoundTrip(String(x), true);
  }

  lemma StringEmpty()
    ensures ParseDocument("\"\"", true) == Ok(String("")) && ToJson(String("")) == "\"\""
  {
    PlainString("");
  }

  lemma StringOne(x: Bytes, s: Bytes)
    requires x == "a" && s == "\"a\""
    ensures ParseDocument(s, true) == Ok(String(x)) && ToJson(String(x)) == s
  {
    assert s == Quoted(x);
    PlainString(x);
  }

  lemma StringThree(x: Bytes, s: Bytes)
    requires x == "abc" && s == "\"abc\""
    ensures ParseDocument(s, true) == Ok(String(x)) && ToJson(String(x)) == s
  {
    assert s == Quoted(x);
    PlainString(x);
  }

  /** A 64-bit integer is read back from its rendering. */
  lemma IntegerDocument(n: int, t: Bytes)
    requires IsInt64(n) && t == IntegerJson(n)
    ensures ParseDocument(t, true) == Ok(Integer(n))
  {
    DocumentRoundTrip(Integer(n), true);
  }

  lemma IntegerZero()
    ensures ParseDocument("0", true) == Ok(Integer(0)) && ToJson(Integer(0)) == "0"
  {
    IntegerDocument(0, "0");
  }

  lemma IntegerPositive()
    ensures ParseDocument("12345", true) == Ok(Integer(12345)) && ToJson(Integer(12345)) == "12345"
  {
    IntegerDocument(12345, "12345");
  }

  lemma IntegerMinusOne()
    ensures ParseDocument("-1", true) == Ok(Integer(-1)) && ToJson(Integer(-1)) == "-1"
  {
    IntegerDocument(-1, "-1");
  }

  lemma IntegerNegative()
    ensures ParseDocument("-12345", true) == Ok(Integer(-12345)) && ToJson(Integer(-12345)) == "-12345"
  {
    IntegerDocument(-12345, "-12345");
  }

  /** `-0` is the integer 0, written back as `0`. */
  lemma MinusZero()
    ensures ParseDocument("-0", true) == Ok(Integer(0))
    ensures ToJson(Integer(0)) == "0"
  {
    var s: Bytes := "-0";
    assert DigitsEnd(s, 2) == 2;
    assert DigitsEnd(s, 1) == 2;
    assert FractionEnd(s, 2) == 2 && ExponentEnd(s, 2) == 2;
    assert s[1..2] == "0";
    assert DecimalValue("0") == 0;
    assert ParseNumber(s, 0) == Ok((Integer(0), 2));
  }

  /** A number lexeme with a fraction or an exponent is kept digit for digit. */
  lemma FloatDocument(t: Bytes, p: nat, q: nat)
    requires 0 < p <= q <= |t| && p < |t|
    requires IsIntPart(t[..p]) && IsFractionPart(t[p..q]) && IsExponentPart(t[q..])
    ensures ParseDocument(t, true) == Ok(Float(t)) && ToJson(Float(t)) == t
  {
    DocumentRoundTrip(Float(t), true);
  }

  lemma FloatZeroFraction(t: Bytes)
    requires t == "0.0"
    ensures ParseDocument(t, true) == Ok(Float(t)) && ToJson(Float(t)) == t
  {
    FloatDocument(t, 1, 3);
  }

  lemma FloatFraction(t: Bytes)
    requires t == "1.2"
    ensures ParseDocument(t, true) == Ok(Float(t)) && ToJson(Float(t)) == t
  {
    FloatDocument(t, 1, 3);
  }

  lemma FloatPrecision(t: Bytes)
    requires t == "1234.56789"
    ensures ParseDocument(t, true) == Ok(Float(t)) && ToJson(Float(t)) == t
  {
    assert IsFractionPart(t[4..10]) by {
      var f := t[4..10];
      assert forall k | 0 <= k < 5 :: f[1..][k] == f[k + 1];
    }
    FloatDocument(t, 4, 10);
  }

  lemma FloatExponent(t: Bytes)
    requires t == "0e0" || t == "0E0"
    ensures ParseDocument(t, true) == Ok(Float(t))
  {
    FloatDocument(t, 1, 1);
  }

  lemma FloatSignedExponent(t: Bytes)
    requires t == "0e+0" || t == "0E+0" || t == "0e-0" || t == "0E-0"
    ensures ParseDocument(t, true) == Ok(Float(t))
  {
    FloatDocument(t, 1, 1);
  }

  lemma FloatFractionExponent(t: Bytes)
    requires t == "0.0e0"
    ensures ParseDocument(t, true) == Ok(Float(t))
  {
    assert IsFractionPart(t[1..3]) by {
      var f := t[1..3];
      assert f[1..][0] == f[1];
    }
    FloatDocument(t, 1, 3);
  }

  /**
   * `0E` read without consume_all: the exponent has no digit, so the number
   * is the integer 0 and only its first byte is consumed.
   */
  lemma ZeroE()
    ensures ParseValue("0E", 0) == Ok((Integer(0), 1))
    ensures ParseDocument("0E", false) == Ok(Integer(0)) && ToJson(Integer(0)) == "0"
    ensures ParseDocument("0E", true) == Err(TrailingBytes(1))
  {
    var s: Bytes := "0E";
    assert DigitsEnd(s, 1) == 1;
    assert DigitsEnd(s, 0) == 1;
    assert FractionEnd(s, 1) == 1 && ExponentEnd(s, 1) == 1;
    assert s[0..1] == "0";
    assert DecimalValue("0") == 0;
    assert SkipWhitespace(s, 1) == 1;
  }

  /**
   * `1.` read by the rule that `0E` follows: a `.` with no digit after it
   * does not start a fraction, so the number is the integer 1 and the `.`
   * is left unread.
   */
  lemma DotWithoutDigit()
    ensures ParseValue("1.", 0) == Ok((Integer(1), 1))
    ensures ParseDocument("1.", false) == Ok(Integer(1))
    ensures ParseDocument("1.", true) == Err(TrailingBytes(1))
  {
    var s: Bytes := "1.";
    assert DigitsEnd(s, 1) == 1;
    assert DigitsEnd(s, 0) == 1;
    assert FractionEnd(s, 1) == 1 && ExponentEnd(s, 1) == 1;
    assert s[0..1] == "1";
    assert DecimalValue("1") == 1;
    assert SkipWhitespace(s, 1) == 1;
  }

  lemma LiteralRejects()
    ensures ParseDocument("a", true) == Err(InvalidValue(0))
    ensures ParseDocument("n", true) == Err(InvalidLiteral(0))
    ensures ParseDocument("t", true) == Err(InvalidLiteral(0))
    ensures ParseDocument("f", true) == Err(InvalidLiteral(0))
  {
  }

  lemma LiteralTrailingBytes()
    ensures ParseDocument("nulll", true) == Err(TrailingBytes(4))
    ensures ParseDocument("truee", true) == Err(TrailingBytes(4))
    ensures ParseDocument("falsee", true) == Err(TrailingBytes(5))
  {
  }

  lemma EscapeRejects()
    ensures ParseDocument("\"", true) == Err(UnterminatedString(1))
    ensures ParseDocument("\"\\", true) == Err(InvalidEscape(1))
    ensures ParseDocument("\"\\y", true) == Err(InvalidEscape(1))
  {
  }

  lemma ShortUnicodeEscape()
    ensures ParseDocument("\"\\u", true) == Err(InvalidUnicodeEscape(1))
    ensures ParseDocument("\"\\uabc", true) == Err(InvalidUnicodeEscape(1))
  {
  }

  lemma BadUnicodeEscape()
    ensures ParseDocument("\"\\uabcz", true) == Err(InvalidUnicodeEscape(1))
  {
  }

  lemma UnterminatedAfterEscape()
    ensures ParseDocument("\"\\u0061", true) == Err(UnterminatedString(7))
  {
  }

  lemma ValidTextText(t: Bytes)
    requires t == "\"validtext\""
    ensures t == Quoted("validtext")
  {
  }

  lemma StringTrailingBytes(t: Bytes, u: Bytes, s: Bytes)
    requires t == "\"validtext\"" && u == "trailing" && s == t + u
    ensures ParseDocument(s, true) == Err(TrailingBytes(11))
  {
    ValidTextText(t);
    PlainQuoted("validtext");
    TrailingText(String("validtext"), t, u, s);
  }

  /** A rendered value followed by text starting with a letter after `e`: rejected where that letter is. */
  lemma TrailingText(v: Value, t: Bytes, u: Bytes, s: Bytes)
    requires Valid(v) && t == ToJson(v) && s == t + u && u != [] && 'f' <= u[0] <= 'z'
    ensures ParseDocument(s, true) == Err(TrailingBytes(|t|))
  {
    AtPrefix(t, u);
    assert s[|t|] == u[0];
    TrailingAfterValue(v, s);
  }

  lemma NumberRejects()
    ensures ParseDocument("-", true) == Err(ExpectedDigit(1))
    ensures ParseDocument("-a", true) == Err(ExpectedDigit(1))
  {
  }
}
