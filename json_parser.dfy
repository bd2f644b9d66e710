/**
 * The recursive-descent parser as the source runs it: a cursor advanced
 * through the input by loops, containers built by appending members and
 * elements. Every method computes exactly the corresponding function of
 * module JsonGrammar.
 */
module JsonParser {
  import opened Text
  import opened Results
  import opened JsonValues
  import G = JsonGrammar

  method SkipWhitespace(s: Bytes, pos: nat) returns (j: nat)
    requires pos <= |s|
    ensures j == G.SkipWhitespace(s, pos)
  {
    j := pos;
    while j < |s| && IsWhitespace(s[j])
      invariant pos <= j <= |s|
      invariant G.SkipWhitespace(s, j) == G.SkipWhitespace(s, pos)
    {
      j := j + 1;
    }
  }

  method DigitsEnd(s: Bytes, pos: nat) returns (j: nat)
    requires pos <= |s|
    ensures j == G.DigitsEnd(s, pos)
  {
    j := pos;
    while j < |s| && IsDigit(s[j])
      invariant pos <= j <= |s|
      invariant G.DigitsEnd(s, j) == G.DigitsEnd(s, pos)
    {
      j := j + 1;
    }
  }

  /** A string literal whose opening quote is at `pos`, read byte by byte. */
  method ParseString(s: Bytes, pos: nat) returns (r: G.Parsed<Bytes>)
    requires pos < |s| && s[pos] == '"'
    ensures r == G.ParseString(s, pos)
  {
    var acc: Bytes := [];
    var i := pos + 1;
    while i < |s|
      invariant pos < i <= |s|
      invariant G.StringChars(s, i, acc) == G.ParseString(s, pos)
      decreases |s| - i
    {
      if s[i] == '"' {
        return Ok((acc, i + 1));
      } else if s[i] == '\\' {
        var esc := G.EscapeAt(s, i);
        if esc.Err? {
          return Err(esc.error);
        }
        acc := acc + esc.value.0;
        i := esc.value.1;
      } else {
        acc := acc + [s[i]];
        i := i + 1;
      }
    }
    r := Err(G.UnterminatedString(i));
  }

  method FractionEnd(s: Bytes, pos: nat) returns (j: nat)
    requires pos <= |s|
    ensures j == G.FractionEnd(s, pos)
  {
    j := pos;
    if j + 1 < |s| && s[j] == '.' && IsDigit(s[j + 1]) {
      j := DigitsEnd(s, j + 1);
    }
  }

  method ExponentEnd(s: Bytes, pos: nat) returns (j: nat)
    requires pos <= |s|
    ensures j == G.ExponentEnd(s, pos)
  {
    j := pos;
    if j < |s| && (s[j] == 'e' || s[j] == 'E') {
      var k := j + 1;
      if k < |s| && (s[k] == '+' || s[k] == '-') {
        k := k + 1;
      }
      if k < |s| && IsDigit(s[k]) {
        j := DigitsEnd(s, k);
      }
    }
  }

  /** The number the digits `s[from..to]` denote, accumulated left to right. */
  method DecimalOf(s: Bytes, from: nat, to: nat) returns (n: nat)
    requires from <= to <= |s| && AllDigits(s[from..to])
    ensures n == DecimalValue(s[from..to])
  {
    n := 0;
    var k := from;
    while k < to
      invariant from <= k <= to
      invariant AllDigits(s[from..k]) && n == DecimalValue(s[from..k])
    {
      assert s[from..k + 1] == s[from..to][..k + 1 - from];
      assert s[from..k + 1][..k - from] == s[from..k];
      n := n * 10 + DigitValue(s[k]);
      k := k + 1;
    }
  }

  /** A number starting at `pos`. */
  method ParseNumber(s: Bytes, pos: nat) returns (r: G.Parsed<Value>)
    requires pos < |s| && (s[pos] == '-' || IsDigit(s[pos]))
    ensures r == G.ParseNumber(s, pos)
  {
    var negative := s[pos] == '-';
    var d0 := if negative then pos + 1 else pos;
    var d1 := DigitsEnd(s, d0);
    if d1 == d0 {
      return Err(G.ExpectedDigit(d0));
    }
    var f := FractionEnd(s, d1);
    var e := ExponentEnd(s, f);
    if e > d1 {
      return Ok((Float(s[pos..e]), e));
    }
    G.DigitsRun(s, d0);
    var magnitude := DecimalOf(s, d0, d1);
    var n: int := if negative then -(magnitude as int) else magnitude;
    if IsInt64(n) {
      r := Ok((Integer(n), d1));
    } else {
      r := Err(G.IntegerOutOfRange(pos));
    }
  }

  /** `JSONValue::parse(json, pos)`: one value after optional whitespace. */
  method ParseValue(s: Bytes, pos: nat) returns (r: G.Parsed<Value>)
    requires pos <= |s|
    ensures r == G.ParseValue(s, pos)
    decreases |s| - pos, 3
  {
    var j := SkipWhitespace(s, pos);
    if j == |s| {
      r := Err(G.UnexpectedEnd);
    } else {
      r := ValueAt(s, j);
    }
  }

  /** The value whose first byte is at `j`, chosen by that byte. */
  method ValueAt(s: Bytes, j: nat) returns (r: G.Parsed<Value>)
    requires j < |s|
    ensures r == G.ValueAt(s, j)
    decreases |s| - j, 2
  {
    if s[j] == '{' {
      r := ParseObject(s, j);
    } else if s[j] == '[' {
      r := ParseArray(s, j);
    } else if s[j] == '"' {
      var t := ParseString(s, j);
      if t.Err? {
        r := Err(t.error);
      } else {
        r := Ok((String(t.value.0), t.value.1));
      }
    } else if s[j] == 't' {
      r := G.ParseLiteral(s, j, "true", Bool(true));
    } else if s[j] == 'f' {
      r := G.ParseLiteral(s, j, "false", Bool(false));
    } else if s[j] == 'n' {
      r := G.ParseLiteral(s, j, "null", Null);
    } else if s[j] == '-' || IsDigit(s[j]) {
      r := ParseNumber(s, j);
    } else {
      r := Err(G.InvalidValue(j));
    }
  }

  /**
   * What one pass of a container loop leaves: the cursor and the contents
   * read so far for the next pass, or the container's final result.
   */
  datatype Step<T> = Continue(next: nat, contents: T) | Done(result: G.Parsed<Value>)

  /** `JSONArray::parse(json, pos)`: elements are appended as they are read. */
  method ParseArray(s: Bytes, pos: nat) returns (r: G.Parsed<Value>)
    requires pos <= |s|
    ensures r == G.ParseArray(s, pos)
    decreases |s| - pos, 1
  {
    G.ArrayEntry(s, pos);
    var j := SkipWhitespace(s, pos);
    if j == |s| {
      return Err(G.UnexpectedEnd);
    }
    if s[j] != '[' {
      return Err(G.ExpectedLeftBracket(j));
    }
    var i := SkipWhitespace(s, j + 1);
    if i < |s| && s[i] == ']' {
      return Ok((Array([]), i + 1));
    }
    var elems: seq<Value> := [];
    while true
      invariant pos < i <= |s|
      invariant G.Elements(s, i, elems) == G.ParseArray(s, pos)
      decreases |s| - i
    {
      var step := ElementStep(s, i, elems);
      if step.Done? {
        return step.result;
      }
      i, elems := step.next, step.contents;
    }
  }

  /** One pass of the array loop: an element, then `,` or `]`. */
  method ElementStep(s: Bytes, i: nat, elems: seq<Value>) returns (step: Step<seq<Value>>)
    requires i <= |s|
    ensures step.Continue? ==>
      i < step.next <= |s| && G.Elements(s, step.next, step.contents) == G.Elements(s, i, elems)
    ensures step.Done? ==> step.result == G.Elements(s, i, elems)
    decreases |s| - i, 4
  {
    G.ElementsStep(s, i, elems);
    var e := ParseValue(s, i);
    if e.Err? {
      return Done(Err(e.error));
    }
    var d := SkipWhitespace(s, e.value.1);
    if d < |s| && s[d] == ',' {
      step := Continue(d + 1, elems + [e.value.0]);
    } else if d < |s| && s[d] == ']' {
      step := Done(Ok((Array(elems + [e.value.0]), d + 1)));
    } else {
      step := Done(Err(G.ExpectedRightBracket(d)));
    }
  }

  /** `JSONObject::parse(json, pos)`: each member is put into the object as it is read. */
  method ParseObject(s: Bytes, pos: nat) returns (r: G.Parsed<Value>)
    requires pos <= |s|
    ensures r == G.ParseObject(s, pos)
    decreases |s| - pos, 1
  {
    G.ObjectEntry(s, pos);
    var j := SkipWhitespace(s, pos);
    if j == |s| {
      return Err(G.UnexpectedEnd);
    }
    if s[j] != '{' {
      return Err(G.ExpectedLeftBrace(j));
    }
    var i := SkipWhitespace(s, j + 1);
    if i < |s| && s[i] == '}' {
      return Ok((Object([]), i + 1));
    }
    var members: seq<Member> := [];
    while true
      invariant pos < i <= |s|
      invariant G.Members(s, i, members) == G.ParseObject(s, pos)
      decreases |s| - i
    {
      var step := MemberStep(s, i, members);
      if step.Done? {
        return step.result;
      }
      i, members := step.next, step.contents;
    }
  }

  /** One pass of the object loop: a name, `:`, a value, then `,` or `}`. */
  method MemberStep(s: Bytes, i: nat, members: seq<Member>) returns (step: Step<seq<Member>>)
    requires i <= |s|
    ensures step.Continue? ==>
      i < step.next <= |s| && G.Members(s, step.next, step.contents) == G.Members(s, i, members)
    ensures step.Done? ==> step.result == G.Members(s, i, members)
    decreases |s| - i, 3
  {
    G.MembersStep(s, i, members);
    var n := SkipWhitespace(s, i);
    if n == |s| {
      return Done(Err(G.UnexpectedEnd));
    }
    if s[n] != '"' {
      return Done(Err(G.ExpectedName(n)));
    }
    var name := ParseString(s, n);
    if name.Err? {
      return Done(Err(name.error));
    }
    step := MemberValueStep(s, name.value.0, name.value.1, members);
  }

  /** The rest of one pass of the object loop, after the member's name. */
  method MemberValueStep(s: Bytes, name: Bytes, k: nat, members: seq<Member>) returns (step: Step<seq<Member>>)
    requires k <= |s|
    ensures step.Continue? ==>
      k < step.next <= |s| && G.Members(s, step.next, step.contents) == G.MemberValue(s, name, k, members)
    ensures step.Done? ==> step.result == G.MemberValue(s, name, k, members)
    decreases |s| - k, 4
  {
    G.MemberValueStep(s, name, k, members);
    var c := SkipWhitespace(s, k);
    if c == |s| || s[c] != ':' {
      return Done(Err(G.ExpectedColon(c)));
    }
    var v := ParseValue(s, c + 1);
    if v.Err? {
      return Done(Err(v.error));
    }
    G.MemberSeparatorStep(s, name, k, members, v.value.0, v.value.1);
    var d := SkipWhitespace(s, v.value.1);
    var updated := Put(members, name, v.value.0);
    if d < |s| && s[d] == ',' {
      step := Continue(d + 1, updated);
    } else if d < |s| && s[d] == '}' {
      step := Done(Ok((Object(updated), d + 1)));
    } else {
      step := Done(Err(G.ExpectedRightBrace(d)));
    }
  }

  /** Reject what follows a complete value when `consume_all` asks for it. */
  method Finish(s: Bytes, r: G.Parsed<Value>, consumeAll: bool) returns (doc: Result<Value, G.ParseError>)
    requires r.Ok? ==> r.value.1 <= |s|
    ensures doc == G.Finish(s, r, consumeAll)
  {
    if r.Err? {
      return Err(r.error);
    }
    var k := SkipWhitespace(s, r.value.1);
    if consumeAll && k < |s| {
      doc := Err(G.TrailingBytes(k));
    } else {
      doc := Ok(r.value.0);
    }
  }

  /** `JSONValue::test_parse(json, consume_all)`. */
  method TestParse(s: Bytes, consumeAll: bool) returns (doc: Result<Value, G.ParseError>)
    ensures doc == G.ParseDocument(s, consumeAll)
  {
    var r := ParseValue(s, 0);
    doc := Finish(s, r, consumeAll);
  }

  /** `JSONArray::test_parse(json)`. */
  method TestParseArray(s: Bytes) returns (doc: Result<Value, G.ParseError>)
    ensures doc == G.ParseArrayDocument(s)
  {
    var r := ParseArray(s, 0);
    doc := Finish(s, r, true);
  }

  /** `JSONObject::make(json)`. */
  method MakeObject(s: Bytes) returns (doc: Result<Value, G.ParseError>)
    ensures doc == G.ParseObjectDocument(s)
  {
    var r := ParseObject(s, 0);
    doc := Finish(s, r, true);
  }
}
