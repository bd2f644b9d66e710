/**
 * What the parser builds: numbers, arrays and objects of the expected kind
 * between their delimiters, and always a value the source can represent:
 * integers in 64 bits, floats kept as number lexemes, and objects whose
 * member names are distinct (a repeated name replaces the earlier value).
 * So the rendering of any parsed document reads back as the same tree:
 * re-parsing the output of `toJSON` is stable.
 */
module JsonStability {
  import opened Text
  import opened Results
  import opened JsonValues
  import opened JsonGrammar
  import JsonRoundTrip

  // ---------------------------------------------------------------------
  // Number lexemes
  // ---------------------------------------------------------------------

  /** The sign and integer digits a number scan passes over form an integer part. */
  lemma IntPartScanned(s: Bytes, i: nat, d0: nat, d1: nat)
    requires i < |s| && d0 == (if s[i] == '-' then i + 1 else i)
    requires d0 < d1 && d1 == DigitsEnd(s, d0)
    ensures IsIntPart(s[i..d1])
  {
    DigitsRun(s, d0);
    var t := s[i..d1];
    if s[i] == '-' {
      assert t[1..] == s[d0..d1];
    } else {
      assert t == s[d0..d1];
      assert IsDigit(t[0]);
    }
  }

  /** What a fraction scan passes over is a fraction part. */
  lemma FractionScanned(s: Bytes, d1: nat, f: nat)
    requires d1 <= |s| && f == FractionEnd(s, d1)
    ensures IsFractionPart(s[d1..f])
  {
    if f > d1 {
      DigitsRun(s, d1 + 1);
      var t := s[d1..f];
      assert t[1..] == s[d1 + 1..f];
    }
  }

  /** What an exponent scan passes over is an exponent part. */
  lemma ExponentScanned(s: Bytes, f: nat, e: nat)
    requires f <= |s| && e == ExponentEnd(s, f)
    ensures IsExponentPart(s[f..e])
  {
    if e > f {
      var k := if f + 1 < |s| && (s[f + 1] == '+' || s[f + 1] == '-') then f + 2 else f + 1;
      DigitsRun(s, k);
      var t := s[f..e];
      assert t[k - f..] == s[k..e];
    }
  }

  /** A number scan that takes a fraction or an exponent has read a float lexeme. */
  lemma FloatScanned(s: Bytes, i: nat, d0: nat, d1: nat, f: nat, e: nat)
    requires i < |s| && d0 == (if s[i] == '-' then i + 1 else i)
    requires d0 < d1 && d1 == DigitsEnd(s, d0) && f == FractionEnd(s, d1) && e == ExponentEnd(s, f)
    requires e > d1
    ensures IsFloatLexeme(s[i..e])
  {
    IntPartScanned(s, i, d0, d1);
    FractionScanned(s, d1, f);
    ExponentScanned(s, f, e);
    LexemeOfSlices(s, i, d1, f, e);
  }

  lemma LexemeOfSlices(s: Bytes, i: nat, d1: nat, f: nat, e: nat)
    requires i < d1 <= f <= e <= |s| && d1 < e
    requires IsIntPart(s[i..d1]) && IsFractionPart(s[d1..f]) && IsExponentPart(s[f..e])
    ensures IsFloatLexeme(s[i..e])
  {
    var t := s[i..e];
    var p, q := d1 - i, f - i;
    assert t[..p] == s[i..d1];
    assert t[p..q] == s[d1..f] by {
      forall k | 0 <= k < q - p ensures t[p..q][k] == s[d1..f][k] {
        assert t[p..q][k] == s[d1 + k];
      }
    }
    assert t[q..] == s[f..e];
    LexemeFromParts(t, p, q);
  }

  lemma LexemeFromParts(t: Bytes, p: nat, q: nat)
    requires 0 < p <= q <= |t| && p < |t|
    requires IsIntPart(t[..p]) && IsFractionPart(t[p..q]) && IsExponentPart(t[q..])
    ensures IsFloatLexeme(t)
  {
  }

  /** A number read is an integer in range or a float lexeme. */
  lemma NumberValid(s: Bytes, i: nat)
    requires i < |s| && (s[i] == '-' || IsDigit(s[i])) && ParseNumber(s, i).Ok?
    ensures Valid(ParseNumber(s, i).value.0)
  {
    var d0 := if s[i] == '-' then i + 1 else i;
    var d1 := DigitsEnd(s, d0);
    var f := FractionEnd(s, d1);
    var e := ExponentEnd(s, f);
    if e > d1 {
      FloatScanned(s, i, d0, d1, f, e);
      assert ParseNumber(s, i).value.0 == Float(s[i..e]);
    }
  }

  /**
   * A number read is a 64-bit integer or a float holding exactly the bytes
   * it spans; a refusal is a missing digit or an integer out of range.
   */
  lemma NumberRead(s: Bytes, i: nat)
    requires i < |s| && (s[i] == '-' || IsDigit(s[i]))
    ensures ParseNumber(s, i).Ok? ==>
      (ParseNumber(s, i).value.0.Integer? && IsInt64(ParseNumber(s, i).value.0.n)) ||
      ParseNumber(s, i).value.0 == Float(s[i..ParseNumber(s, i).value.1])
    ensures ParseNumber(s, i).Err? ==>
      ParseNumber(s, i).error == ExpectedDigit(if s[i] == '-' then i + 1 else i) ||
      ParseNumber(s, i).error == IntegerOutOfRange(i)
  {
  }

  // ---------------------------------------------------------------------
  // Arrays and objects are read between their delimiters
  // ---------------------------------------------------------------------

  /** An array read is an array that opens with `[` and ends with `]`. */
  lemma ArrayRead(s: Bytes, i: nat)
    requires i <= |s| && ParseArray(s, i).Ok?
    ensures ParseArray(s, i).value.0.Array?
    ensures SkipWhitespace(s, i) < |s| && s[SkipWhitespace(s, i)] == '['
    ensures s[ParseArray(s, i).value.1 - 1] == ']'
  {
    var j := SkipWhitespace(s, i);
    var k := SkipWhitespace(s, j + 1);
    if !(k < |s| && s[k] == ']') {
      ElementsRead(s, k, []);
    }
  }

  lemma {:induction false} ElementsRead(s: Bytes, i: nat, acc: seq<Value>)
    requires i <= |s| && Elements(s, i, acc).Ok?
    ensures Elements(s, i, acc).value.0.Array? && s[Elements(s, i, acc).value.1 - 1] == ']'
    decreases |s| - i
  {
    var (v, m) := ParseValue(s, i).value;
    var d := SkipWhitespace(s, m);
    if d < |s| && s[d] == ',' {
      ElementsRead(s, d + 1, acc + [v]);
    }
  }

  /** An object read is an object that opens with `{` and ends with `}`. */
  lemma ObjectRead(s: Bytes, i: nat)
    requires i <= |s| && ParseObject(s, i).Ok?
    ensures ParseObject(s, i).value.0.Object?
    ensures SkipWhitespace(s, i) < |s| && s[SkipWhitespace(s, i)] == '{'
    ensures s[ParseObject(s, i).value.1 - 1] == '}'
  {
    var j := SkipWhitespace(s, i);
    var k := SkipWhitespace(s, j + 1);
    if !(k < |s| && s[k] == '}') {
      MembersRead(s, k, []);
    }
  }

  lemma {:induction false} MembersRead(s: Bytes, i: nat, acc: seq<Member>)
    requires i <= |s| && Members(s, i, acc).Ok?
    ensures Members(s, i, acc).value.0.Object? && s[Members(s, i, acc).value.1 - 1] == '}'
    decreases |s| - i, 0
  {
    var j := SkipWhitespace(s, i);
    var (name, k) := ParseString(s, j).value;
    MemberValueRead(s, name, k, acc);
  }

  lemma {:induction false} MemberValueRead(s: Bytes, name: Bytes, k: nat, acc: seq<Member>)
    requires k <= |s| && MemberValue(s, name, k, acc).Ok?
    ensures MemberValue(s, name, k, acc).value.0.Object? && s[MemberValue(s, name, k, acc).value.1 - 1] == '}'
    decreases |s| - k, 1
  {
    var c := SkipWhitespace(s, k);
    var (v, m) := ParseValue(s, c + 1).value;
    var d := SkipWhitespace(s, m);
    if d < |s| && s[d] == ',' {
      MembersRead(s, d + 1, Put(acc, name, v));
    }
  }

  // ---------------------------------------------------------------------
  // Values, arrays and objects
  // ---------------------------------------------------------------------

  lemma {:induction false} ValueValid(s: Bytes, i: nat)
    requires i <= |s| && ParseValue(s, i).Ok?
    ensures Valid(ParseValue(s, i).value.0)
    decreases |s| - i, 3
  {
    var j := SkipWhitespace(s, i);
    ValueAtValid(s, j);
  }

  lemma {:induction false} ValueAtValid(s: Bytes, j: nat)
    requires j < |s| && ValueAt(s, j).Ok?
    ensures Valid(ValueAt(s, j).value.0)
    decreases |s| - j, 2
  {
    if s[j] == '{' {
      ObjectValid(s, j);
    } else if s[j] == '[' {
      ArrayValid(s, j);
    } else if s[j] == '-' || IsDigit(s[j]) {
      assert s[j] != '"' && s[j] != 't' && s[j] != 'f' && s[j] != 'n';
      NumberValid(s, j);
    }
  }

  lemma {:induction false} ArrayValid(s: Bytes, i: nat)
    requires i <= |s| && ParseArray(s, i).Ok?
    ensures Valid(ParseArray(s, i).value.0)
    decreases |s| - i, 1
  {
    var j := SkipWhitespace(s, i);
    var k := SkipWhitespace(s, j + 1);
    if !(k < |s| && s[k] == ']') {
      ElementsValid(s, k, []);
    }
  }

  lemma {:induction false} ElementsValid(s: Bytes, i: nat, acc: seq<Value>)
    requires i <= |s| && Valid(Array(acc)) && Elements(s, i, acc).Ok?
    ensures Valid(Elements(s, i, acc).value.0)
    decreases |s| - i, 4
  {
    var (v, m) := ParseValue(s, i).value;
    ValueValid(s, i);
    var d := SkipWhitespace(s, m);
    assert Valid(Array(acc + [v])) by {
      assert forall k | 0 <= k < |acc + [v]| :: (acc + [v])[k] == if k < |acc| then acc[k] else v;
    }
    if d < |s| && s[d] == ',' {
      ElementsValid(s, d + 1, acc + [v]);
    }
  }

  lemma {:induction false} ObjectValid(s: Bytes, i: nat)
    requires i <= |s| && ParseObject(s, i).Ok?
    ensures Valid(ParseObject(s, i).value.0)
    decreases |s| - i, 1
  {
    var j := SkipWhitespace(s, i);
    var k := SkipWhitespace(s, j + 1);
    if !(k < |s| && s[k] == '}') {
      assert ValidMembers([]);
      MembersValid(s, k, []);
    }
  }

  lemma {:induction false} MembersValid(s: Bytes, i: nat, acc: seq<Member>)
    requires i <= |s| && ValidMembers(acc) && Members(s, i, acc).Ok?
    ensures Valid(Members(s, i, acc).value.0)
    decreases |s| - i, 3
  {
    var j := SkipWhitespace(s, i);
    var (name, k) := ParseString(s, j).value;
    MemberValueValid(s, name, k, acc);
  }

  lemma {:induction false} MemberValueValid(s: Bytes, name: Bytes, k: nat, acc: seq<Member>)
    requires k <= |s| && ValidMembers(acc) && MemberValue(s, name, k, acc).Ok?
    ensures Valid(MemberValue(s, name, k, acc).value.0)
    decreases |s| - k, 4
  {
    var c := SkipWhitespace(s, k);
    var (v, m) := ParseValue(s, c + 1).value;
    ValueValid(s, c + 1);
    PutKeepsValid(acc, name, v);
    var d := SkipWhitespace(s, m);
    if d < |s| && s[d] == ',' {
      MembersValid(s, d + 1, Put(acc, name, v));
    }
  }

  // ---------------------------------------------------------------------
  // Whole documents
  // ---------------------------------------------------------------------

  /** Every document `test_parse` accepts is a value the source can represent. */
  lemma ParsedValid(s: Bytes, consumeAll: bool)
    requires ParseDocument(s, consumeAll).Ok?
    ensures Valid(ParseDocument(s, consumeAll).value)
  {
    ValueValid(s, 0);
  }

  /** Every object `JSONObject::make` accepts has distinct names and representable values. */
  lemma ParsedObjectValid(s: Bytes)
    requires ParseObjectDocument(s).Ok?
    ensures Valid(ParseObjectDocument(s).value)
  {
    ObjectValid(s, 0);
  }

  /**
   * Round-trip stability: the rendering of whatever `test_parse` returns
   * parses back, with or without `consume_all`, to the same tree.
   */
  lemma ReparseStable(s: Bytes, consumeAll: bool, again: bool)
    requires ParseDocument(s, consumeAll).Ok?
    ensures ParseDocument(ToJson(ParseDocument(s, consumeAll).value), again) == ParseDocument(s, consumeAll)
  {
    ParsedValid(s, consumeAll);
    JsonRoundTrip.DocumentRoundTrip(ParseDocument(s, consumeAll).value, again);
  }
}
