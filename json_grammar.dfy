/**
 * The JSON grammar as the recursive-descent parser reads it, written as
 * functions of the input and a cursor position. Each function returns the
 * value it read together with the position just after it, or the error the
 * parser raises; no partial value is ever returned.
 *
 * The imperative parser (module JsonParser) is proved to compute exactly
 * these functions; the properties of the parser are proved about them
 * (module JsonRoundTrip).
 */
module JsonGrammar {
  import opened Text
  import opened Results
  import opened JsonValues

  datatype ParseError =
    | UnexpectedEnd               // the input ends where a value or token is due
    | InvalidValue(at: nat)       // no JSON value starts with this byte
    | ExpectedLeftBrace(at: nat)
    | ExpectedName(at: nat)       // a member name (a string) is due
    | ExpectedColon(at: nat)
    | ExpectedRightBrace(at: nat)
    | ExpectedLeftBracket(at: nat)
    | ExpectedRightBracket(at: nat)
    | InvalidLiteral(at: nat)     // `t`, `f` or `n` not followed by the rest of the word
    | UnterminatedString(at: nat) // the closing quote is missing
    | InvalidEscape(at: nat)
    | InvalidUnicodeEscape(at: nat)
    | ExpectedDigit(at: nat)
    | IntegerOutOfRange(at: nat)
    | TrailingBytes(at: nat)      // consume_all and more than whitespace follows

  /** A parse result: the thing read and the position after it. */
  type Parsed<T> = Result<(T, nat), ParseError>

  /** The first position at or after `i` that does not hold whitespace. */
  function SkipWhitespace(s: Bytes, i: nat): (j: nat)
    requires i <= |s|
    ensures i <= j <= |s|
    ensures j == |s| || !IsWhitespace(s[j])
    decreases |s| - i
  {
    if i < |s| && IsWhitespace(s[i]) then SkipWhitespace(s, i + 1) else i
  }

  /** The first position at or after `i` that does not hold a digit. */
  function DigitsEnd(s: Bytes, i: nat): (j: nat)
    requires i <= |s|
    ensures i <= j <= |s|
    ensures j == |s| || !IsDigit(s[j])
    decreases |s| - i
  {
    if i < |s| && IsDigit(s[i]) then DigitsEnd(s, i + 1) else i
  }

  /** Every byte `DigitsEnd` passes over is a digit. */
  lemma {:induction false} DigitsRun(s: Bytes, i: nat)
    requires i <= |s|
    ensures AllDigits(s[i..DigitsEnd(s, i)])
    decreases |s| - i
  {
    var j := DigitsEnd(s, i);
    if i < j {
      DigitsRun(s, i + 1);
      assert s[i..j] == [s[i]] + s[i + 1..j];
    }
  }

  // ---------------------------------------------------------------------
  // Literals
  // ---------------------------------------------------------------------

  function ParseLiteral(s: Bytes, i: nat, word: Bytes, v: Value): (r: Parsed<Value>)
    requires i <= |s|
    ensures r.Ok? ==> r.value == (v, i + |word|) && i + |word| <= |s|
  {
    if i + |word| <= |s| && s[i..i + |word|] == word then Ok((v, i + |word|))
    else Err(InvalidLiteral(i))
  }

  // ---------------------------------------------------------------------
  // Strings
  // ---------------------------------------------------------------------

  predicate IsHexDigit(c: Byte) {
    ('0' <= c <= '9') || ('a' <= c <= 'f') || ('A' <= c <= 'F')
  }

  function HexValue(c: Byte): (d: nat)
    requires IsHexDigit(c)
    ensures d < 16
  {
    if '0' <= c <= '9' then c as int - '0' as int
    else if 'a' <= c <= 'f' then c as int - 'a' as int + 10
    else c as int - 'A' as int + 10
  }

  /** The UTF-8 encoding of a code point named by a `\uXXXX` escape. */
  function Utf8(cp: nat): (t: Bytes)
    requires cp < 0x10000
    ensures 1 <= |t| <= 3
  {
    if cp < 0x80 then [cp as char]
    else if cp < 0x800 then [(0xC0 + cp / 64) as char, (0x80 + cp % 64) as char]
    else [(0xE0 + cp / 4096) as char, (0x80 + (cp / 64) % 64) as char, (0x80 + cp % 64) as char]
  }

  /**
   * The bytes an escape sequence starting at the backslash at `i` stands
   * for, and the position after it.
   */
  function EscapeAt(s: Bytes, i: nat): (r: Parsed<Bytes>)
    requires i < |s| && s[i] == '\\'
    ensures r.Ok? ==> i + 2 <= r.value.1 <= |s|
  {
    if i + 1 == |s| then Err(InvalidEscape(i))
    else
      var e := s[i + 1];
      if e == '"' || e == '\\' || e == '/' then Ok(([e], i + 2))
      else if e == 'b' then Ok(([0x08 as char], i + 2))
      else if e == 'f' then Ok(([0x0C as char], i + 2))
      else if e == 'n' then Ok((['\n'], i + 2))
      else if e == 'r' then Ok((['\r'], i + 2))
      else if e == 't' then Ok((['\t'], i + 2))
      else if e == 'u' then
        if i + 6 <= |s| && IsHexDigit(s[i + 2]) && IsHexDigit(s[i + 3])
           && IsHexDigit(s[i + 4]) && IsHexDigit(s[i + 5])
        then
          var cp := HexValue(s[i + 2]) * 4096 + HexValue(s[i + 3]) * 256
                    + HexValue(s[i + 4]) * 16 + HexValue(s[i + 5]);
          Ok((Utf8(cp), i + 6))
        else Err(InvalidUnicodeEscape(i))
      else Err(InvalidEscape(i))
  }

  /** The rest of a string literal from `i`, `acc` holding the bytes read so far. */
  function StringChars(s: Bytes, i: nat, acc: Bytes): (r: Parsed<Bytes>)
    requires i <= |s|
    ensures r.Ok? ==> i < r.value.1 <= |s|
    decreases |s| - i
  {
    if i == |s| then Err(UnterminatedString(i))
    else if s[i] == '"' then Ok((acc, i + 1))
    else if s[i] == '\\' then
      match EscapeAt(s, i)
      case Err(e) => Err(e)
      case Ok((bytes, k)) => StringChars(s, k, acc + bytes)
    else StringChars(s, i + 1, acc + [s[i]])
  }

  /** A string literal whose opening quote is at `i`. */
  function ParseString(s: Bytes, i: nat): (r: Parsed<Bytes>)
    requires i < |s| && s[i] == '"'
    ensures r.Ok? ==> i + 2 <= r.value.1 <= |s|
  {
    StringChars(s, i + 1, [])
  }

  // ---------------------------------------------------------------------
  // Numbers
  // ---------------------------------------------------------------------

  /** After the integer digits ending at `i`: the end of a `.digits` fraction, or `i`. */
  function FractionEnd(s: Bytes, i: nat): (j: nat)
    requires i <= |s|
    ensures i <= j <= |s|
  {
    if i + 1 < |s| && s[i] == '.' && IsDigit(s[i + 1]) then DigitsEnd(s, i + 1) else i
  }

  /** The end of an `[eE][+-]?digits` exponent at `i`, or `i` when none is complete. */
  function ExponentEnd(s: Bytes, i: nat): (j: nat)
    requires i <= |s|
    ensures i <= j <= |s|
  {
    if i < |s| && (s[i] == 'e' || s[i] == 'E') then
      var k := if i + 1 < |s| && (s[i + 1] == '+' || s[i + 1] == '-') then i + 2 else i + 1;
      if k < |s| && IsDigit(s[k]) then DigitsEnd(s, k) else i
    else i
  }

  /**
   * A number starting at `i`. A fraction or exponent is taken only when it
   * is complete; otherwise the number ends before it and the rest is left
   * to the caller.
   */
  function ParseNumber(s: Bytes, i: nat): (r: Parsed<Value>)
    requires i < |s| && (s[i] == '-' || IsDigit(s[i]))
    ensures r.Ok? ==> i < r.value.1 <= |s|
  {
    var d0 := if s[i] == '-' then i + 1 else i;
    var d1 := DigitsEnd(s, d0);
    if d1 == d0 then Err(ExpectedDigit(d0))
    else
      var e := ExponentEnd(s, FractionEnd(s, d1));
      if e > d1 then Ok((Float(s[i..e]), e))
      else
        var magnitude: int := assert AllDigits(s[d0..d1]) by { DigitsRun(s, d0); } DecimalValue(s[d0..d1]);
        var n := if s[i] == '-' then -magnitude else magnitude;
        if IsInt64(n) then Ok((Integer(n), d1)) else Err(IntegerOutOfRange(i))
  }

  // ---------------------------------------------------------------------
  // Values, arrays and objects
  // ---------------------------------------------------------------------

  /** A value after optional whitespace. */
  function ParseValue(s: Bytes, i: nat): (r: Parsed<Value>)
    requires i <= |s|
    ensures r.Ok? ==> i < r.value.1 <= |s|
    decreases |s| - i, 3
  {
    var j := SkipWhitespace(s, i);
    if j == |s| then Err(UnexpectedEnd) else ValueAt(s, j)
  }

  /** A value at a byte that is not whitespace, chosen by that byte. */
  function ValueAt(s: Bytes, j: nat): (r: Parsed<Value>)
    requires j < |s|
    ensures r.Ok? ==> j < r.value.1 <= |s|
    decreases |s| - j, 2
  {
    if s[j] == '{' then ParseObject(s, j)
    else if s[j] == '[' then ParseArray(s, j)
    else if s[j] == '"' then
      match ParseString(s, j)
      case Err(e) => Err(e)
      case Ok((t, k)) => Ok((String(t), k))
    else if s[j] == 't' then ParseLiteral(s, j, "true", Bool(true))
    else if s[j] == 'f' then ParseLiteral(s, j, "false", Bool(false))
    else if s[j] == 'n' then ParseLiteral(s, j, "null", Null)
    else if s[j] == '-' || IsDigit(s[j]) then ParseNumber(s, j)
    else Err(InvalidValue(j))
  }

  /** An array after optional whitespace (`JSONArray::parse`). */
  function ParseArray(s: Bytes, i: nat): (r: Parsed<Value>)
    requires i <= |s|
    ensures r.Ok? ==> i < r.value.1 <= |s|
    decreases |s| - i, 1
  {
    var j := SkipWhitespace(s, i);
    if j == |s| then Err(UnexpectedEnd)
    else if s[j] != '[' then Err(ExpectedLeftBracket(j))
    else
      var k := SkipWhitespace(s, j + 1);
      if k < |s| && s[k] == ']' then Ok((Array([]), k + 1))
      else Elements(s, k, [])
  }

  /** The elements of an array from the element due at `i`; `acc` holds those read. */
  function Elements(s: Bytes, i: nat, acc: seq<Value>): (r: Parsed<Value>)
    requires i <= |s|
    ensures r.Ok? ==> i < r.value.1 <= |s|
    decreases |s| - i, 4
  {
    match ParseValue(s, i)
    case Err(e) => Err(e)
    case Ok((v, m)) =>
      var d := SkipWhitespace(s, m);
      if d < |s| && s[d] == ',' then Elements(s, d + 1, acc + [v])
      else if d < |s| && s[d] == ']' then Ok((Array(acc + [v]), d + 1))
      else Err(ExpectedRightBracket(d))
  }

  /** `ParseArray` unfolded once. */
  lemma ArrayEntry(s: Bytes, pos: nat)
    requires pos <= |s|
    ensures ParseArray(s, pos) ==
      var j := SkipWhitespace(s, pos);
      if j == |s| then Err(UnexpectedEnd)
      else if s[j] != '[' then Err(ExpectedLeftBracket(j))
      else
        var k := SkipWhitespace(s, j + 1);
        if k < |s| && s[k] == ']' then Ok((Array([]), k + 1))
        else Elements(s, k, [])
  {
  }

  /** One step of `Elements`: the element at `i` and the separator after it. */
  lemma ElementsStep(s: Bytes, i: nat, acc: seq<Value>)
    requires i <= |s|
    ensures ParseValue(s, i).Err? ==> Elements(s, i, acc) == Err(ParseValue(s, i).error)
    ensures ParseValue(s, i).Ok? ==>
      var v, m := ParseValue(s, i).value.0, ParseValue(s, i).value.1;
      var d := SkipWhitespace(s, m);
      && (d < |s| && s[d] == ',' ==> Elements(s, i, acc) == Elements(s, d + 1, acc + [v]))
      && (d < |s| && s[d] == ']' ==> Elements(s, i, acc) == Ok((Array(acc + [v]), d + 1)))
      && (!(d < |s| && (s[d] == ',' || s[d] == ']')) ==> Elements(s, i, acc) == Err(ExpectedRightBracket(d)))
  {
  }

  /** An object after optional whitespace (`JSONObject::parse`). */
  function ParseObject(s: Bytes, i: nat): (r: Parsed<Value>)
    requires i <= |s|
    ensures r.Ok? ==> i < r.value.1 <= |s|
    decreases |s| - i, 1
  {
    var j := SkipWhitespace(s, i);
    if j == |s| then Err(UnexpectedEnd)
    else if s[j] != '{' then Err(ExpectedLeftBrace(j))
    else
      var k := SkipWhitespace(s, j + 1);
      if k < |s| && s[k] == '}' then Ok((Object([]), k + 1))
      else Members(s, k, [])
  }

  /**
   * The members of an object from the member due at `i`; `acc` holds those
   * read. A repeated name replaces the earlier value.
   */
  function Members(s: Bytes, i: nat, acc: seq<Member>): (r: Parsed<Value>)
    requires i <= |s|
    ensures r.Ok? ==> i < r.value.1 <= |s|
    decreases |s| - i, 3
  {
    var j := SkipWhitespace(s, i);
    if j == |s| then Err(UnexpectedEnd)
    else if s[j] != '"' then Err(ExpectedName(j))
    else
      match ParseString(s, j)
      case Err(e) => Err(e)
      case Ok((name, k)) => MemberValue(s, name, k, acc)
  }

  /** The rest of a member whose name ends before `k`: colon, value, then `,` or `}`. */
  function MemberValue(s: Bytes, name: Bytes, k: nat, acc: seq<Member>): (r: Parsed<Value>)
    requires k <= |s|
    ensures r.Ok? ==> k < r.value.1 <= |s|
    decreases |s| - k, 4
  {
    var c := SkipWhitespace(s, k);
    if c == |s| || s[c] != ':' then Err(ExpectedColon(c))
    else
      match ParseValue(s, c + 1)
      case Err(e) => Err(e)
      case Ok((v, m)) =>
        var d := SkipWhitespace(s, m);
        if d < |s| && s[d] == ',' then Members(s, d + 1, Put(acc, name, v))
        else if d < |s| && s[d] == '}' then Ok((Object(Put(acc, name, v)), d + 1))
        else Err(ExpectedRightBrace(d))
  }

  /** `ParseObject` unfolded once. */
  lemma ObjectEntry(s: Bytes, pos: nat)
    requires pos <= |s|
    ensures ParseObject(s, pos) ==
      var j := SkipWhitespace(s, pos);
      if j == |s| then Err(UnexpectedEnd)
      else if s[j] != '{' then Err(ExpectedLeftBrace(j))
      else
        var k := SkipWhitespace(s, j + 1);
        if k < |s| && s[k] == '}' then Ok((Object([]), k + 1))
        else Members(s, k, [])
  {
  }

  /** One step of `Members`: the name of the member due at `i`. */
  lemma MembersStep(s: Bytes, i: nat, acc: seq<Member>)
    requires i <= |s|
    ensures
      var j := SkipWhitespace(s, i);
      && (j == |s| ==> Members(s, i, acc) == Err(UnexpectedEnd))
      && (j < |s| && s[j] != '"' ==> Members(s, i, acc) == Err(ExpectedName(j)))
      && (j < |s| && s[j] == '"' && ParseString(s, j).Err? ==>
            Members(s, i, acc) == Err(ParseString(s, j).error))
      && (j < |s| && s[j] == '"' && ParseString(s, j).Ok? ==>
            Members(s, i, acc) == MemberValue(s, ParseString(s, j).value.0, ParseString(s, j).value.1, acc))
  {
  }

  /** One step of `MemberValue`: the colon and the value after it. */
  lemma MemberValueStep(s: Bytes, name: Bytes, k: nat, acc: seq<Member>)
    requires k <= |s|
    ensures
      var c := SkipWhitespace(s, k);
      && (c == |s| || s[c] != ':' ==> MemberValue(s, name, k, acc) == Err(ExpectedColon(c)))
      && (c < |s| && s[c] == ':' && ParseValue(s, c + 1).Err? ==>
            MemberValue(s, name, k, acc) == Err(ParseValue(s, c + 1).error))
  {
  }

  /** The separator after a member's value `v`, which ends before `m`. */
  lemma MemberSeparatorStep(s: Bytes, name: Bytes, k: nat, acc: seq<Member>, v: Value, m: nat)
    requires k <= |s|
    requires SkipWhitespace(s, k) < |s| && s[SkipWhitespace(s, k)] == ':'
    requires ParseValue(s, SkipWhitespace(s, k) + 1) == Ok((v, m))
    ensures m <= |s|
    ensures SkipWhitespace(s, m) < |s| && s[SkipWhitespace(s, m)] == ',' ==>
      MemberValue(s, name, k, acc) == Members(s, SkipWhitespace(s, m) + 1, Put(acc, name, v))
    ensures SkipWhitespace(s, m) < |s| && s[SkipWhitespace(s, m)] == '}' ==>
      MemberValue(s, name, k, acc) == Ok((Object(Put(acc, name, v)), SkipWhitespace(s, m) + 1))
    ensures !(SkipWhitespace(s, m) < |s| && s[SkipWhitespace(s, m)] in {',', '}'}) ==>
      MemberValue(s, name, k, acc) == Err(ExpectedRightBrace(SkipWhitespace(s, m)))
  {
  }

  // ---------------------------------------------------------------------
  // Whole documents
  // ---------------------------------------------------------------------

  /** Fail when `consume_all` holds and more than whitespace follows position `j`. */
  function Finish(s: Bytes, r: Parsed<Value>, consumeAll: bool): Result<Value, ParseError>
    requires r.Ok? ==> r.value.1 <= |s|
  {
    match r
    case Err(e) => Err(e)
    case Ok((v, j)) =>
      var k := SkipWhitespace(s, j);
      if consumeAll && k < |s| then Err(TrailingBytes(k)) else Ok(v)
  }

  /** `JSONValue::test_parse(json, consume_all)`. */
  function ParseDocument(s: Bytes, consumeAll: bool): (r: Result<Value, ParseError>)
    ensures r.Ok? <==> ParseValue(s, 0).Ok? && (consumeAll ==> SkipWhitespace(s, ParseValue(s, 0).value.1) == |s|)
    ensures r.Ok? ==> r.value == ParseValue(s, 0).value.0
    ensures ParseValue(s, 0).Err? ==> r == Err(ParseValue(s, 0).error)
  {
    Finish(s, ParseValue(s, 0), consumeAll)
  }

  /** Requiring the whole input refuses more documents and never changes what an accepted one reads as. */
  lemma ConsumeAllStricter(s: Bytes)
    ensures ParseDocument(s, true).Ok? ==> ParseDocument(s, false) == ParseDocument(s, true)
    ensures ParseDocument(s, false).Err? ==> ParseDocument(s, true) == ParseDocument(s, false)
  {
  }

  /** `JSONArray::test_parse(json)`: an array and nothing but whitespace after it. */
  function ParseArrayDocument(s: Bytes): Result<Value, ParseError> {
    Finish(s, ParseArray(s, 0), true)
  }

  /** `JSONObject::make(json)`: an object and nothing but whitespace after it. */
  function ParseObjectDocument(s: Bytes): Result<Value, ParseError> {
    Finish(s, ParseObject(s, 0), true)
  }
}
