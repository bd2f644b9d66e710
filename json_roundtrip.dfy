/**
 * The round trip of the JSON grammar: what `toJSON` writes for a value the
 * source can represent, the parser reads back as the same value, ending
 * exactly where the rendering ends.
 */
module JsonRoundTrip {
  import opened Text
  import opened Results
  import opened JsonValues
  import opened JsonGrammar

  // ---------------------------------------------------------------------
  // Text embedded in a larger input
  // ---------------------------------------------------------------------

  /** The bytes `t` occur in `s` at position `i`. */
  predicate At(s: Bytes, i: nat, t: Bytes) {
    i + |t| <= |s| && forall k | 0 <= k < |t| :: s[i + k] == t[k]
  }

  lemma AtSplit(s: Bytes, i: nat, a: Bytes, b: Bytes)
    requires At(s, i, a + b)
    ensures At(s, i, a) && At(s, i + |a|, b)
  {
    forall k | 0 <= k < |a| ensures s[i + k] == a[k] {
      assert (a + b)[k] == a[k];
    }
    forall k | 0 <= k < |b| ensures s[i + |a| + k] == b[k] {
      assert (a + b)[|a| + k] == b[k];
    }
  }

  /** Text `a`, a separator byte, then text `b`. */
  lemma AtSep(s: Bytes, i: nat, a: Bytes, sep: Byte, b: Bytes)
    requires At(s, i, a + [sep] + b)
    ensures At(s, i, a) && i + |a| < |s| && s[i + |a|] == sep && At(s, i + |a| + 1, b)
  {
    var t := a + [sep] + b;
    forall k | 0 <= k < |a| ensures s[i + k] == a[k] {
      assert t[k] == a[k];
    }
    assert t[|a|] == sep;
    forall k | 0 <= k < |b| ensures s[i + |a| + 1 + k] == b[k] {
      assert t[|a| + 1 + k] == b[k];
    }
  }

  /** Text `a`, a separator byte, text `b`, then text `c`. */
  lemma AtJoin(s: Bytes, i: nat, a: Bytes, sep: Byte, b: Bytes, c: Bytes)
    requires At(s, i, a + [sep] + b + c)
    ensures At(s, i, a) && i + |a| < |s| && s[i + |a|] == sep && At(s, i + |a| + 1, b + c)
  {
    var t := a + [sep] + b + c;
    forall k | 0 <= k < |a| ensures s[i + k] == a[k] {
      assert t[k] == a[k];
    }
    assert t[|a|] == sep;
    forall k | 0 <= k < |b + c| ensures s[i + |a| + 1 + k] == (b + c)[k] {
      assert t[|a| + 1 + k] == (b + c)[k];
    }
  }

  /** Text `a`, then text `b` and text `c`. */
  lemma AtFront(s: Bytes, i: nat, a: Bytes, b: Bytes, c: Bytes)
    requires At(s, i, a + b + c)
    ensures At(s, i, a) && At(s, i + |a|, b + c)
  {
    var t := a + b + c;
    forall k | 0 <= k < |a| ensures s[i + k] == a[k] {
      assert t[k] == a[k];
    }
    forall k | 0 <= k < |b + c| ensures s[i + |a| + k] == (b + c)[k] {
      assert t[|a| + k] == (b + c)[k];
    }
  }

  /** Text `a`, then one closing byte. */
  lemma AtLast(s: Bytes, i: nat, a: Bytes, close: Byte)
    requires At(s, i, a + [close])
    ensures At(s, i, a) && i + |a| < |s| && s[i + |a|] == close
  {
    forall k | 0 <= k < |a| ensures s[i + k] == a[k] {
      assert (a + [close])[k] == a[k];
    }
    assert (a + [close])[|a|] == close;
  }

  /** The part `t[lo..hi]` of text occurring at `i` occurs at `i + lo`. */
  lemma AtPart(s: Bytes, i: nat, t: Bytes, lo: nat, hi: nat)
    requires At(s, i, t) && lo <= hi <= |t|
    ensures At(s, i + lo, t[lo..hi])
  {
    forall k | 0 <= k < hi - lo ensures s[i + lo + k] == t[lo..hi][k] {
      assert t[lo + k] == t[lo..hi][k];
    }
  }

  lemma AtByte(s: Bytes, i: nat, t: Bytes, k: nat)
    requires At(s, i, t) && k < |t|
    ensures s[i + k] == t[k]
  {
  }

  lemma AtSlice(s: Bytes, i: nat, t: Bytes)
    requires At(s, i, t)
    ensures s[i..i + |t|] == t
  {
    forall k | 0 <= k < |t| ensures s[i..i + |t|][k] == t[k] {
      AtByte(s, i, t, k);
    }
  }

  /**
   * Position `k` of `s` ends a number: no digit, fraction or exponent could
   * continue it.
   */
  predicate Delimited(s: Bytes, k: nat) {
    k >= |s| || !(IsDigit(s[k]) || s[k] == '.' || s[k] == 'e' || s[k] == 'E')
  }

  lemma SkipNone(s: Bytes, i: nat)
    requires i < |s| && !IsWhitespace(s[i])
    ensures SkipWhitespace(s, i) == i
  {
  }

  // ---------------------------------------------------------------------
  // Numbers
  // ---------------------------------------------------------------------

  /** A run of digits followed by a non-digit is read to its end. */
  lemma {:induction false} DigitsEndAt(s: Bytes, a: nat, b: nat)
    requires a <= b <= |s| && forall k | a <= k < b :: IsDigit(s[k])
    requires b == |s| || !IsDigit(s[b])
    ensures DigitsEnd(s, a) == b
    decreases b - a
  {
    if a < b {
      DigitsEndAt(s, a + 1, b);
    }
  }

  /** The digits of `t`, occurring at `a`, are a run of digits. */
  lemma AllDigitsAt(s: Bytes, a: nat, t: Bytes)
    requires At(s, a, t) && AllDigits(t)
    ensures forall k | a <= k < a + |t| :: IsDigit(s[k])
  {
    forall k | a <= k < a + |t| ensures IsDigit(s[k]) {
      AtByte(s, a, t, k - a);
    }
  }

  lemma FractionEndAt(s: Bytes, a: nat, f: Bytes)
    requires At(s, a, f) && IsFractionPart(f)
    requires a + |f| == |s| || !(IsDigit(s[a + |f|]) || s[a + |f|] == '.')
    ensures FractionEnd(s, a) == a + |f|
  {
    if f != [] {
      AtByte(s, a, f, 0);
      AtPart(s, a, f, 1, |f|);
      AllDigitsAt(s, a + 1, f[1..]);
      DigitsEndAt(s, a + 1, a + |f|);
    }
  }

  lemma ExponentEndAt(s: Bytes, a: nat, x: Bytes)
    requires At(s, a, x) && IsExponentPart(x)
    requires Delimited(s, a + |x|)
    ensures ExponentEnd(s, a) == a + |x|
  {
    if x != [] {
      AtByte(s, a, x, 0);
      AtByte(s, a, x, 1);
      var k := if x[1] == '+' || x[1] == '-' then 2 else 1;
      AtPart(s, a, x, k, |x|);
      AllDigitsAt(s, a + k, x[k..]);
      AtByte(s, a, x, k);
      DigitsEndAt(s, a + k, a + |x|);
    }
  }

  /** `toJSON` of a 64-bit integer reads back as that integer. */
  lemma IntegerRoundTrip(n: int, s: Bytes, i: nat)
    requires IsInt64(n) && At(s, i, IntegerJson(n)) && Delimited(s, i + |IntegerJson(n)|)
    ensures i < |s| && (s[i] == '-' || IsDigit(s[i]))
    ensures ParseNumber(s, i) == Ok((Integer(n), i + |IntegerJson(n)|))
  {
    var m := if n < 0 then -n else n;
    var d0 := IntegerSign(n, s, i);
    var d1 := d0 + |Decimal(m)|;
    IntegerDigits(s, d0, m);
    NumberIsInteger(s, i, d0, d1, m, n);
  }

  /** A rendered integer starts with a minus sign exactly when it is negative; its digits start at `d0`. */
  lemma IntegerSign(n: int, s: Bytes, i: nat) returns (d0: nat)
    requires At(s, i, IntegerJson(n)) && Delimited(s, i + |IntegerJson(n)|)
    ensures i < |s| && (s[i] == '-' <==> n < 0) && d0 == (if s[i] == '-' then i + 1 else i)
    ensures At(s, d0, Decimal(if n < 0 then -n else n))
    ensures d0 + |Decimal(if n < 0 then -n else n)| == i + |IntegerJson(n)|
    ensures Delimited(s, i + |IntegerJson(n)|)
  {
    var d := Decimal(if n < 0 then -n else n);
    d0 := if n < 0 then i + 1 else i;
    AtByte(s, i, IntegerJson(n), 0);
    if n < 0 {
      AtSplit(s, i, "-", d);
    }
  }

  /** The digits of a numeral at `d0` are read to their end, and denote the number. */
  lemma IntegerDigits(s: Bytes, d0: nat, m: nat)
    requires At(s, d0, Decimal(m)) && Delimited(s, d0 + |Decimal(m)|)
    ensures d0 < d0 + |Decimal(m)| <= |s| && IsDigit(s[d0])
    ensures DigitsEnd(s, d0) == d0 + |Decimal(m)|
    ensures FractionEnd(s, d0 + |Decimal(m)|) == d0 + |Decimal(m)|
    ensures ExponentEnd(s, d0 + |Decimal(m)|) == d0 + |Decimal(m)|
    ensures AllDigits(s[d0..d0 + |Decimal(m)|]) && DecimalValue(s[d0..d0 + |Decimal(m)|]) == m
  {
    NumeralStart(s, d0, m);
    NumeralEnd(s, d0, m);
    NoFraction(s, d0 + |Decimal(m)|);
    NumeralValue(s, d0, m);
  }

  lemma NumeralStart(s: Bytes, d0: nat, m: nat)
    requires At(s, d0, Decimal(m))
    ensures d0 < d0 + |Decimal(m)| <= |s| && IsDigit(s[d0])
  {
    AtByte(s, d0, Decimal(m), 0);
  }

  lemma NumeralEnd(s: Bytes, d0: nat, m: nat)
    requires At(s, d0, Decimal(m)) && Delimited(s, d0 + |Decimal(m)|)
    ensures DigitsEnd(s, d0) == d0 + |Decimal(m)|
  {
    AllDigitsAt(s, d0, Decimal(m));
    DigitsEndAt(s, d0, d0 + |Decimal(m)|);
  }

  /** Where a number is delimited, neither a fraction nor an exponent follows. */
  lemma NoFraction(s: Bytes, d1: nat)
    requires d1 <= |s| && Delimited(s, d1)
    ensures FractionEnd(s, d1) == d1 && ExponentEnd(s, d1) == d1
  {
  }

  lemma NumeralValue(s: Bytes, d0: nat, m: nat)
    requires At(s, d0, Decimal(m))
    ensures AllDigits(s[d0..d0 + |Decimal(m)|]) && DecimalValue(s[d0..d0 + |Decimal(m)|]) == m
  {
    AtSlice(s, d0, Decimal(m));
    DecimalRoundTrip(m);
  }

  /** `ParseNumber` when the digits are followed by neither a fraction nor an exponent. */
  lemma NumberIsInteger(s: Bytes, i: nat, d0: nat, d1: nat, m: nat, n: int)
    requires i < |s| && (s[i] == '-' <==> n < 0) && d0 == (if s[i] == '-' then i + 1 else i)
    requires d0 < d1 <= |s| && IsDigit(s[d0]) && DigitsEnd(s, d0) == d1
    requires FractionEnd(s, d1) == d1 && ExponentEnd(s, d1) == d1
    requires AllDigits(s[d0..d1]) && DecimalValue(s[d0..d1]) == m && m == (if n < 0 then -n else n) && IsInt64(n)
    ensures s[i] == '-' || IsDigit(s[i])
    ensures ParseNumber(s, i) == Ok((Integer(n), d1))
  {
  }

  /** A float lexeme reads back as itself. */
  lemma FloatRoundTrip(t: Bytes, s: Bytes, i: nat)
    requires IsFloatLexeme(t) && At(s, i, t) && Delimited(s, i + |t|)
    ensures i < |s| && (s[i] == '-' || IsDigit(s[i]))
    ensures ParseNumber(s, i) == Ok((Float(t), i + |t|))
  {
    var p, q :| 0 < p <= q <= |t| && p < |t|
      && IsIntPart(t[..p]) && IsFractionPart(t[p..q]) && IsExponentPart(t[q..]);
    FloatPartsRoundTrip(t, p, q, s, i);
  }

  /** A float lexeme whose fraction starts at `p` and exponent at `q` is read to its end. */
  lemma FloatPartsRoundTrip(t: Bytes, p: nat, q: nat, s: Bytes, i: nat)
    requires 0 < p <= q <= |t| && p < |t|
    requires IsIntPart(t[..p]) && IsFractionPart(t[p..q]) && IsExponentPart(t[q..])
    requires At(s, i, t) && Delimited(s, i + |t|)
    ensures i < |s| && (s[i] == '-' || IsDigit(s[i]))
    ensures ParseNumber(s, i) == Ok((Float(t), i + |t|))
  {
    var d1, f, e := i + p, i + q, i + |t|;
    FloatEnds(t, p, q, s, i, d1, f, e);
    NumberIsFloat(s, i, d1, f, e, t);
  }

  /** Where the digits, the fraction and the exponent of a float lexeme end. */
  lemma FloatEnds(t: Bytes, p: nat, q: nat, s: Bytes, i: nat, d1: nat, f: nat, e: nat)
    requires 0 < p <= q <= |t| && p < |t|
    requires IsIntPart(t[..p]) && IsFractionPart(t[p..q]) && IsExponentPart(t[q..])
    requires At(s, i, t) && Delimited(s, i + |t|)
    requires d1 == i + p && f == i + q && e == i + |t|
    ensures i < |s| && (s[i] == '-' || IsDigit(s[i]))
    ensures (if s[i] == '-' then i + 1 else i) < d1 <= f <= |s|
    ensures DigitsEnd(s, if s[i] == '-' then i + 1 else i) == d1
    ensures FractionEnd(s, d1) == f && ExponentEnd(s, f) == e > d1
    ensures s[i..e] == t
  {
    IntPartEnd(t, p, q, s, i, d1);
    FractionPartEnd(t, p, q, s, i, d1, f);
    ExponentPartEnd(t, q, s, i, f, e);
    AtSlice(s, i, t);
  }

  /** The fraction of a float lexeme is read up to its exponent. */
  lemma FractionPartEnd(t: Bytes, p: nat, q: nat, s: Bytes, i: nat, d1: nat, f: nat)
    requires p <= q <= |t| && IsFractionPart(t[p..q]) && IsExponentPart(t[q..])
    requires At(s, i, t) && Delimited(s, i + |t|) && d1 == i + p && f == i + q
    ensures d1 <= |s| && FractionEnd(s, d1) == f
  {
    AtPart(s, i, t, p, q);
    if q < |t| {
      AtByte(s, i, t, q);
      assert t[q] == t[q..][0];
    }
    FractionEndAt(s, i + p, t[p..q]);
  }

  /** The exponent of a float lexeme is read to the lexeme's end. */
  lemma ExponentPartEnd(t: Bytes, q: nat, s: Bytes, i: nat, f: nat, e: nat)
    requires q <= |t| && IsExponentPart(t[q..])
    requires At(s, i, t) && Delimited(s, i + |t|) && f == i + q && e == i + |t|
    ensures f <= |s| && ExponentEnd(s, f) == e
  {
    AtPart(s, i, t, q, |t|);
    assert t[q..|t|] == t[q..];
    ExponentEndAt(s, i + q, t[q..]);
  }

  /** The digits of a float lexeme's integer part stop where its fraction or exponent starts. */
  lemma IntPartEnd(t: Bytes, p: nat, q: nat, s: Bytes, i: nat, d1: nat)
    requires 0 < p <= q <= |t| && p < |t|
    requires IsIntPart(t[..p]) && IsFractionPart(t[p..q]) && IsExponentPart(t[q..])
    requires At(s, i, t) && d1 == i + p
    ensures i < |s| && (s[i] == '-' || IsDigit(s[i]))
    ensures (if s[i] == '-' then i + 1 else i) < d1 <= |s|
    ensures DigitsEnd(s, if s[i] == '-' then i + 1 else i) == d1
  {
    AtByte(s, i, t, 0);
    assert t[0] == t[..p][0];
    var d0 := if s[i] == '-' then i + 1 else i;
    var lo := d0 - i;
    assert AllDigits(t[lo..p]) by {
      if lo == 1 { assert t[1..p] == t[..p][1..]; } else { assert t[..p] == t[0..p]; }
    }
    AtPart(s, i, t, lo, p);
    AllDigitsAt(s, d0, t[lo..p]);
    AtByte(s, i, t, p);
    assert t[p] == '.' || t[p] == 'e' || t[p] == 'E' by {
      if p < q { assert t[p] == t[p..q][0]; } else { assert t[p] == t[q..][0]; }
    }
    DigitsEndAt(s, d0, i + p);
  }

  /** `ParseNumber` when a complete fraction or exponent follows the digits. */
  lemma NumberIsFloat(s: Bytes, i: nat, d1: nat, f: nat, e: nat, t: Bytes)
    requires i < |s| && (s[i] == '-' || IsDigit(s[i]))
    requires (if s[i] == '-' then i + 1 else i) < d1 <= f <= |s|
    requires DigitsEnd(s, if s[i] == '-' then i + 1 else i) == d1
    requires FractionEnd(s, d1) == f && ExponentEnd(s, f) == e > d1
    requires s[i..e] == t
    ensures ParseNumber(s, i) == Ok((Float(t), e))
  {
  }

  // ---------------------------------------------------------------------
  // Strings
  // ---------------------------------------------------------------------

  lemma HexRoundTrip(d: nat)
    requires d < 16
    ensures IsHexDigit(HexDigit(d)) && HexValue(HexDigit(d)) == d
  {
  }

  /** An escape written by `toJSON` reads back as the byte it stands for. */
  lemma EscapeRoundTrip(s: Bytes, i: nat, c: Byte)
    requires At(s, i, EscapeByte(c)) && |EscapeByte(c)| > 1
    ensures s[i] == '\\'
    ensures EscapeAt(s, i) == Ok(([c], i + |EscapeByte(c)|))
  {
    var t := EscapeByte(c);
    AtByte(s, i, t, 0);
    AtByte(s, i, t, 1);
    if t[1] == 'u' {
      AtByte(s, i, t, 2);
      AtByte(s, i, t, 3);
      AtByte(s, i, t, 4);
      AtByte(s, i, t, 5);
      HexRoundTrip(if c as int < 0x10 then c as int else c as int - 0x10);
    }
  }

  /**
   * The escaped bytes of `x` and a closing quote read back as `x`, after the
   * bytes `acc`: the literal is `acc + x`, here `whole`, and ends at `end`.
   */
  lemma {:induction false} StringCharsRoundTrip(s: Bytes, i: nat, x: Bytes, acc: Bytes, whole: Bytes, end: nat)
    requires At(s, i, Escape(x) + "\"") && acc + x == whole && end == i + |Escape(x)| + 1
    ensures StringChars(s, i, acc) == Ok((whole, end))
    decreases |x|
  {
    if x == [] {
      assert acc + x == acc;
      StringCharsClose(s, i, acc);
    } else {
      var e := EscapeByte(x[0]);
      EscapeLayout(s, i, x);
      ConsAppend(acc, x, whole);
      StringCharsRoundTrip(s, i + |e|, x[1..], acc + [x[0]], whole, end);
      StringCharsStep(s, i, x, acc, Ok((whole, end)));
    }
  }

  /** The closing quote ends the literal. */
  lemma StringCharsClose(s: Bytes, i: nat, acc: Bytes)
    requires At(s, i, Escape([]) + "\"")
    ensures StringChars(s, i, acc) == Ok((acc, i + 1))
  {
    assert Escape([]) + "\"" == "\"";
    AtByte(s, i, "\"", 0);
  }

  lemma ConsAppend<T>(acc: seq<T>, x: seq<T>, whole: seq<T>)
    requires x != [] && acc + x == whole
    ensures acc + [x[0]] + x[1..] == whole
  {
    assert acc + [x[0]] + x[1..] == acc + x;
  }

  /** Where the escape of the first byte of `x` and the rest of the literal lie. */
  lemma EscapeLayout(s: Bytes, i: nat, x: Bytes)
    requires x != [] && At(s, i, Escape(x) + "\"")
    ensures At(s, i, EscapeByte(x[0]))
    ensures At(s, i + |EscapeByte(x[0])|, Escape(x[1..]) + "\"")
    ensures |Escape(x)| == |EscapeByte(x[0])| + |Escape(x[1..])|
  {
    EscapeCons(x);
    EscapeHead(s, i, x);
    EscapeRest(s, i, x);
  }

  lemma EscapeHead(s: Bytes, i: nat, x: Bytes)
    requires x != [] && At(s, i, EscapeByte(x[0]) + Escape(x[1..]) + "\"")
    ensures At(s, i, EscapeByte(x[0]))
  {
    AtFront(s, i, EscapeByte(x[0]), Escape(x[1..]), "\"");
  }

  lemma EscapeRest(s: Bytes, i: nat, x: Bytes)
    requires x != [] && At(s, i, EscapeByte(x[0]) + Escape(x[1..]) + "\"")
    ensures At(s, i + |EscapeByte(x[0])|, Escape(x[1..]) + "\"")
  {
    AtFront(s, i, EscapeByte(x[0]), Escape(x[1..]), "\"");
  }

  lemma EscapeCons(x: Bytes)
    requires x != []
    ensures Escape(x) == EscapeByte(x[0]) + Escape(x[1..])
  {
  }

  /** Reading the first escaped byte of `x` moves on to the rest of the literal. */
  lemma StringCharsStep(s: Bytes, i: nat, x: Bytes, acc: Bytes, r: Parsed<Bytes>)
    requires x != [] && At(s, i, EscapeByte(x[0])) && i + |EscapeByte(x[0])| <= |s|
    requires StringChars(s, i + |EscapeByte(x[0])|, acc + [x[0]]) == r
    ensures StringChars(s, i, acc) == r
  {
    var e := EscapeByte(x[0]);
    if |e| > 1 {
      EscapeRoundTrip(s, i, x[0]);
    } else {
      AtByte(s, i, e, 0);
    }
  }

  /** `toJSON` of a string reads back as that string. */
  lemma StringRoundTrip(x: Bytes, s: Bytes, i: nat)
    requires At(s, i, StringJson(x))
    ensures i < |s| && s[i] == '"'
    ensures ParseString(s, i) == Ok((x, i + |StringJson(x)|))
  {
    AtFront(s, i, "\"", Escape(x), "\"");
    AtByte(s, i, "\"", 0);
    assert [] + x == x;
    StringCharsRoundTrip(s, i + 1, x, [], x, i + |StringJson(x)|);
  }

  // ---------------------------------------------------------------------
  // Values, arrays and objects
  // ---------------------------------------------------------------------

  /** The bytes a value can start with. */
  predicate StartsValue(c: Byte) {
    c == 'n' || c == 't' || c == 'f' || c == '-' || IsDigit(c) || c == '"' || c == '[' || c == '{'
  }

  /** The rendering of a valid value is not empty and starts as a value does. */
  lemma ToJsonStart(v: Value)
    requires Valid(v)
    ensures |ToJson(v)| > 0 && StartsValue(ToJson(v)[0])
  {
    match v
    case Integer(n) =>
      if n < 0 { assert ToJson(v)[0] == '-'; } else { assert ToJson(v)[0] == Decimal(n)[0]; }
    case Float(t) =>
      var p, q :| 0 < p <= q <= |t| && p < |t|
        && IsIntPart(t[..p]) && IsFractionPart(t[p..q]) && IsExponentPart(t[q..]);
      assert t[0] == t[..p][0];
    case _ =>
  }

  /** The number of values in a value tree: the measure the round-trip proofs descend on. */
  function Size(v: Value): (n: nat)
    ensures n >= 1
    decreases v
  {
    match v
    case Array(es) => 1 + ElementsSize(es)
    case Object(ms) => 1 + MembersSize(ms)
    case _ => 1
  }

  function ElementsSize(es: seq<Value>): nat
    decreases es
  {
    if es == [] then 0 else Size(es[0]) + ElementsSize(es[1..])
  }

  function MembersSize(ms: seq<Member>): nat
    decreases ms
  {
    if ms == [] then 0 else Size(ms[0].value) + MembersSize(ms[1..])
  }

  /** `toJSON` of a valid value, here `t`, reads back as that value. */
  lemma {:induction false} ValueRoundTrip(v: Value, t: Bytes, s: Bytes, i: nat)
    requires Valid(v) && t == ToJson(v) && At(s, i, t) && Delimited(s, i + |t|)
    ensures ParseValue(s, i) == Ok((v, i + |t|))
    decreases Size(v), 2
  {
    ToJsonStart(v);
    AtByte(s, i, t, 0);
    SkipNone(s, i);
    ValueAtRoundTrip(v, t, s, i);
  }

  /** A valid value, rendered as `t`, reads back from its first byte on. */
  lemma {:induction false} ValueAtRoundTrip(v: Value, t: Bytes, s: Bytes, i: nat)
    requires Valid(v) && t == ToJson(v) && At(s, i, t) && Delimited(s, i + |t|) && i < |s|
    ensures ValueAt(s, i) == Ok((v, i + |t|))
    decreases Size(v), 1
  {
    if v.Array? || v.Object? {
      ContainerAtRoundTrip(v, t, s, i);
    } else if v.Integer? || v.Float? {
      NumberAtRoundTrip(v, t, s, i);
    } else {
      LiteralAtRoundTrip(v, t, s, i);
    }
  }

  lemma {:induction false} ContainerAtRoundTrip(v: Value, t: Bytes, s: Bytes, i: nat)
    requires v.Array? || v.Object?
    requires Valid(v) && t == ToJson(v) && At(s, i, t)
    ensures ValueAt(s, i) == Ok((v, i + |t|))
    decreases Size(v), 0
  {
    match v
    case Array(es) => ArrayAt(es, s, i);
    case Object(ms) => ObjectAt(ms, s, i);
  }

  lemma NumberAtRoundTrip(v: Value, t: Bytes, s: Bytes, i: nat)
    requires v.Integer? || v.Float?
    requires Valid(v) && t == ToJson(v) && At(s, i, t) && Delimited(s, i + |t|)
    ensures ValueAt(s, i) == Ok((v, i + |t|))
  {
    match v
    case Integer(n) => IntegerAt(n, s, i);
    case Float(x) => FloatAt(x, s, i);
  }

  lemma LiteralAtRoundTrip(v: Value, t: Bytes, s: Bytes, i: nat)
    requires v.Null? || v.Bool? || v.String?
    requires t == ToJson(v) && At(s, i, t) && i < |s|
    ensures ValueAt(s, i) == Ok((v, i + |t|))
  {
    match v
    case Null => LiteralAt(s, i, "null", Null);
    case Bool(b) => if b { LiteralAt(s, i, "true", v); } else { LiteralAt(s, i, "false", v); }
    case String(x) => StringAt(x, s, i);
  }

  lemma LiteralAt(s: Bytes, i: nat, word: Bytes, v: Value)
    requires i < |s| && At(s, i, word)
    requires (word, v) == ("null", Null) || (word, v) == ("true", Bool(true)) || (word, v) == ("false", Bool(false))
    ensures ValueAt(s, i) == Ok((v, i + |word|))
  {
    AtSlice(s, i, word);
    AtByte(s, i, word, 0);
  }

  lemma IntegerAt(n: int, s: Bytes, i: nat)
    requires IsInt64(n) && At(s, i, IntegerJson(n)) && Delimited(s, i + |IntegerJson(n)|)
    ensures ValueAt(s, i) == Ok((Integer(n), i + |IntegerJson(n)|))
  {
    IntegerRoundTrip(n, s, i);
    ValueAtNumber(s, i);
  }

  lemma FloatAt(x: Bytes, s: Bytes, i: nat)
    requires IsFloatLexeme(x) && At(s, i, x) && Delimited(s, i + |x|)
    ensures ValueAt(s, i) == Ok((Float(x), i + |x|))
  {
    FloatRoundTrip(x, s, i);
    ValueAtNumber(s, i);
  }

  /** A value starting with a minus sign or a digit is a number. */
  lemma ValueAtNumber(s: Bytes, i: nat)
    requires i < |s| && (s[i] == '-' || IsDigit(s[i]))
    ensures ValueAt(s, i) == ParseNumber(s, i)
  {
    assert s[i] != '{' && s[i] != '[' && s[i] != '"' && s[i] != 't' && s[i] != 'f' && s[i] != 'n';
  }

  /** A value starting with a quote is a string. */
  lemma ValueAtString(s: Bytes, i: nat, x: Bytes, k: nat)
    requires i < |s| && s[i] == '"' && ParseString(s, i) == Ok((x, k))
    ensures ValueAt(s, i) == Ok((String(x), k))
  {
  }

  /** A value starting with a bracket is an array. */
  lemma ValueAtArray(s: Bytes, i: nat)
    requires i < |s| && s[i] == '['
    ensures ValueAt(s, i) == ParseArray(s, i)
  {
  }

  /** A value starting with a brace is an object. */
  lemma ValueAtObject(s: Bytes, i: nat)
    requires i < |s| && s[i] == '{'
    ensures ValueAt(s, i) == ParseObject(s, i)
  {
  }

  lemma StringAt(x: Bytes, s: Bytes, i: nat)
    requires At(s, i, StringJson(x))
    ensures ValueAt(s, i) == Ok((String(x), i + |StringJson(x)|))
  {
    StringRoundTrip(x, s, i);
    ValueAtString(s, i, x, i + |StringJson(x)|);
  }

  lemma {:induction false} ArrayAt(es: seq<Value>, s: Bytes, i: nat)
    requires Valid(Array(es)) && At(s, i, ToJson(Array(es)))
    ensures ValueAt(s, i) == Ok((Array(es), i + |ToJson(Array(es))|))
    decreases ElementsSize(es), 9
  {
    AtByte(s, i, ToJson(Array(es)), 0);
    ArrayRoundTrip(es, s, i);
    ValueAtArray(s, i);
  }

  lemma {:induction false} ObjectAt(ms: seq<Member>, s: Bytes, i: nat)
    requires ValidMembers(ms) && At(s, i, ToJson(Object(ms)))
    ensures ValueAt(s, i) == Ok((Object(ms), i + |ToJson(Object(ms))|))
    decreases MembersSize(ms), 10
  {
    AtByte(s, i, ToJson(Object(ms)), 0);
    ObjectRoundTrip(ms, s, i);
    ValueAtObject(s, i);
  }

  /** `toJSON` of an array of valid values reads back as that array. */
  lemma {:induction false} ArrayRoundTrip(es: seq<Value>, s: Bytes, i: nat)
    requires Valid(Array(es))
    requires At(s, i, ToJson(Array(es)))
    ensures ParseArray(s, i) == Ok((Array(es), i + |ToJson(Array(es))|))
    decreases ElementsSize(es), 8
  {
    if es == [] {
      EmptyArrayRoundTrip(es, s, i);
    } else {
      FullArrayRoundTrip(es, s, i);
    }
  }

  lemma EmptyArrayRoundTrip(es: seq<Value>, s: Bytes, i: nat)
    requires es == [] && At(s, i, ToJson(Array(es)))
    ensures ParseArray(s, i) == Ok((Array(es), i + |ToJson(Array(es))|))
  {
    ContainerLayout(s, i, '[', ElementsJson(es), ']');
    ArrayEntry(s, i);
    SkipNone(s, i + 1);
  }

  lemma {:induction false} FullArrayRoundTrip(es: seq<Value>, s: Bytes, i: nat)
    requires es != [] && Valid(Array(es))
    requires At(s, i, ToJson(Array(es)))
    ensures ParseArray(s, i) == Ok((Array(es), i + |ToJson(Array(es))|))
    decreases ElementsSize(es), 7
  {
    var t := ElementsJson(es);
    ContainerLayout(s, i, '[', t, ']');
    ArrayBody(es, t, s, i + 1);
    ArrayOpen(s, i);
  }

  /** An opening bracket not followed by a closing one: the elements follow. */
  lemma ArrayOpen(s: Bytes, i: nat)
    requires i + 1 < |s| && s[i] == '[' && SkipWhitespace(s, i) == i
    requires SkipWhitespace(s, i + 1) == i + 1 && s[i + 1] != ']'
    ensures ParseArray(s, i) == Elements(s, i + 1, [])
  {
    ArrayEntry(s, i);
  }

  /** The elements of a non-empty array and its closing bracket. */
  lemma {:induction false} ArrayBody(es: seq<Value>, t: Bytes, s: Bytes, i: nat)
    requires es != [] && Valid(Array(es))
    requires t == ElementsJson(es) && At(s, i, t + "]")
    ensures i < |s| && SkipWhitespace(s, i) == i && s[i] != ']'
    ensures Elements(s, i, []) == Ok((Array(es), i + |t| + 1))
    decreases ElementsSize(es), 6
  {
    ElementsFirstByte(es);
    AtByte(s, i, t + "]", 0);
    SkipNone(s, i);
    assert [] + es == es;
    ElementsRoundTrip(es, t, s, i, [], es);
  }

  /** Where the opening byte, the contents and the closing byte of a container lie. */
  lemma ContainerLayout(s: Bytes, i: nat, open: Byte, body: Bytes, close: Byte)
    requires At(s, i, [open] + body + [close])
    ensures i < |s| && s[i] == open
    ensures At(s, i + 1, body + [close])
    ensures body == [] ==> i + 1 < |s| && s[i + 1] == close
    ensures open != ' ' && open != '\t' && open != '\n' && open != '\r' ==> SkipWhitespace(s, i) == i
  {
    assert [open] + body + [close] == [open] + (body + [close]);
    AtSplit(s, i, [open], body + [close]);
    AtByte(s, i, [open], 0);
    if body == [] {
      AtByte(s, i + 1, body + [close], 0);
    }
  }

  lemma ElementsFirstByte(es: seq<Value>)
    requires es != [] && Valid(es[0])
    ensures |ElementsJson(es)| > 0 && StartsValue(ElementsJson(es)[0])
  {
    ToJsonStart(es[0]);
    assert ElementsJson(es)[0] == ToJson(es[0])[0];
  }

  /** Where the first element and the separator after it lie. */
  lemma ElementsLayout(es: seq<Value>, s: Bytes, i: nat)
    requires es != [] && At(s, i, ElementsJson(es) + "]")
    ensures At(s, i, ToJson(es[0]))
    ensures var e := i + |ToJson(es[0])|;
      e < |s| && (|es| == 1 ==> s[e] == ']') && (|es| > 1 ==> s[e] == ',')
    ensures |es| == 1 ==> |ElementsJson(es)| == |ToJson(es[0])|
    ensures |es| > 1 ==>
      && At(s, i + |ToJson(es[0])| + 1, ElementsJson(es[1..]) + "]")
      && |ElementsJson(es)| == |ToJson(es[0])| + 1 + |ElementsJson(es[1..])|
  {
    if |es| == 1 {
      LastElementLayout(es, s, i);
    } else {
      ElementThenCommaLayout(es, s, i);
    }
  }

  lemma LastElementLayout(es: seq<Value>, s: Bytes, i: nat)
    requires |es| == 1 && At(s, i, ElementsJson(es) + "]")
    ensures At(s, i, ToJson(es[0]))
    ensures i + |ToJson(es[0])| < |s| && s[i + |ToJson(es[0])|] == ']'
    ensures |ElementsJson(es)| == |ToJson(es[0])|
  {
    assert ElementsJson(es) == ToJson(es[0]);
    AtLast(s, i, ToJson(es[0]), ']');
  }

  lemma ElementThenCommaLayout(es: seq<Value>, s: Bytes, i: nat)
    requires |es| > 1 && At(s, i, ElementsJson(es) + "]")
    ensures At(s, i, ToJson(es[0]))
    ensures i + |ToJson(es[0])| < |s| && s[i + |ToJson(es[0])|] == ','
    ensures At(s, i + |ToJson(es[0])| + 1, ElementsJson(es[1..]) + "]")
    ensures |ElementsJson(es)| == |ToJson(es[0])| + 1 + |ElementsJson(es[1..])|
  {
    assert ElementsJson(es) == ToJson(es[0]) + "," + ElementsJson(es[1..]);
    AtJoin(s, i, ToJson(es[0]), ',', ElementsJson(es[1..]), "]");
  }

  /**
   * The elements `es` of an array, rendered as `t`, then its closing bracket,
   * read back after the elements `acc`: the array is `acc + es`, here `whole`.
   */
  lemma {:induction false} ElementsRoundTrip(es: seq<Value>, t: Bytes, s: Bytes, i: nat, acc: seq<Value>, whole: seq<Value>)
    requires es != [] && Valid(Array(es)) && acc + es == whole
    requires t == ElementsJson(es) && At(s, i, t + "]")
    ensures Elements(s, i, acc) == Ok((Array(whole), i + |t| + 1))
    decreases ElementsSize(es), 5
  {
    FirstElement(es, t, s, i);
    var m := i + |ToJson(es[0])|;
    if |es| == 1 {
      assert acc + [es[0]] == whole;
      ElementThenBracket(s, i, acc, es[0], m);
    } else {
      ElementsTail(es, t, s, i, acc, whole);
      ElementThenComma(s, i, acc, es[0], m, Ok((Array(whole), i + |t| + 1)));
    }
  }

  /** The first element reads back up to the separator after it. */
  lemma {:induction false} FirstElement(es: seq<Value>, t: Bytes, s: Bytes, i: nat)
    requires es != [] && Valid(Array(es))
    requires t == ElementsJson(es) && At(s, i, t + "]")
    ensures var m := i + |ToJson(es[0])|;
      && ParseValue(s, i) == Ok((es[0], m)) && m < |s|
      && (|es| == 1 ==> s[m] == ']' && |t| == |ToJson(es[0])|)
      && (|es| > 1 ==> s[m] == ',')
    decreases ElementsSize(es), 4
  {
    ElementsLayout(es, s, i);
    ValueRoundTrip(es[0], ToJson(es[0]), s, i);
  }

  /** The elements after the first read back from the first separator on. */
  lemma {:induction false} ElementsTail(es: seq<Value>, t: Bytes, s: Bytes, i: nat, acc: seq<Value>, whole: seq<Value>)
    requires |es| > 1 && Valid(Array(es)) && acc + es == whole
    requires t == ElementsJson(es) && At(s, i, t + "]")
    ensures Elements(s, i + |ToJson(es[0])| + 1, acc + [es[0]]) == Ok((Array(whole), i + |t| + 1))
    decreases ElementsSize(es), 4
  {
    ElementThenCommaLayout(es, s, i);
    var e1 := i + |ToJson(es[0])| + 1;
    var u := ElementsJson(es[1..]);
    ConsAppend(acc, es, whole);
    ValidTail(es);
    ElementsRoundTrip(es[1..], u, s, e1, acc + [es[0]], whole);
  }

  lemma ValidTail(es: seq<Value>)
    requires es != [] && Valid(Array(es))
    ensures Valid(Array(es[1..]))
  {
    forall k | 0 <= k < |es[1..]| ensures Valid(es[1..][k]) {
      assert es[1..][k] == es[k + 1];
    }
  }

  /** An element read up to `m` and a comma: the array goes on as it does after the comma. */
  lemma ElementThenComma(s: Bytes, i: nat, acc: seq<Value>, v: Value, m: nat, r: Parsed<Value>)
    requires i <= |s| && ParseValue(s, i) == Ok((v, m)) && m < |s| && s[m] == ','
    requires Elements(s, m + 1, acc + [v]) == r
    ensures Elements(s, i, acc) == r
  {
    ElementsStep(s, i, acc);
    SkipNone(s, m);
  }

  /** An element read up to `m` and the closing bracket: the array ends there. */
  lemma ElementThenBracket(s: Bytes, i: nat, acc: seq<Value>, v: Value, m: nat)
    requires i <= |s| && ParseValue(s, i) == Ok((v, m)) && m < |s| && s[m] == ']'
    ensures Elements(s, i, acc) == Ok((Array(acc + [v]), m + 1))
  {
    ElementsStep(s, i, acc);
    SkipNone(s, m);
  }

  /** `toJSON` of a valid object reads back as that object. */
  lemma {:induction false} ObjectRoundTrip(ms: seq<Member>, s: Bytes, i: nat)
    requires ValidMembers(ms)
    requires At(s, i, ToJson(Object(ms)))
    ensures ParseObject(s, i) == Ok((Object(ms), i + |ToJson(Object(ms))|))
    decreases MembersSize(ms), 9
  {
    if ms == [] {
      EmptyObjectRoundTrip(ms, s, i);
    } else {
      FullObjectRoundTrip(ms, s, i);
    }
  }

  lemma EmptyObjectRoundTrip(ms: seq<Member>, s: Bytes, i: nat)
    requires ms == [] && At(s, i, ToJson(Object(ms)))
    ensures ParseObject(s, i) == Ok((Object(ms), i + |ToJson(Object(ms))|))
  {
    ContainerLayout(s, i, '{', MembersJson(ms), '}');
    ObjectEntry(s, i);
    SkipNone(s, i + 1);
  }

  lemma {:induction false} FullObjectRoundTrip(ms: seq<Member>, s: Bytes, i: nat)
    requires ms != [] && ValidMembers(ms)
    requires At(s, i, ToJson(Object(ms)))
    ensures ParseObject(s, i) == Ok((Object(ms), i + |ToJson(Object(ms))|))
    decreases MembersSize(ms), 8
  {
    var t := MembersJson(ms);
    ContainerLayout(s, i, '{', t, '}');
    ObjectBody(ms, t, s, i + 1);
    ObjectOpen(s, i);
  }

  /** An opening brace not followed by a closing one: the members follow. */
  lemma ObjectOpen(s: Bytes, i: nat)
    requires i + 1 < |s| && s[i] == '{' && SkipWhitespace(s, i) == i
    requires SkipWhitespace(s, i + 1) == i + 1 && s[i + 1] != '}'
    ensures ParseObject(s, i) == Members(s, i + 1, [])
  {
    ObjectEntry(s, i);
  }

  /** The members of a non-empty object and its closing brace. */
  lemma {:induction false} ObjectBody(ms: seq<Member>, t: Bytes, s: Bytes, i: nat)
    requires ms != [] && ValidMembers(ms)
    requires t == MembersJson(ms) && At(s, i, t + "}")
    ensures i < |s| && SkipWhitespace(s, i) == i && s[i] != '}'
    ensures Members(s, i, []) == Ok((Object(ms), i + |t| + 1))
    decreases MembersSize(ms), 7
  {
    var k, e := FirstMember(ms, t, s, i);
    SkipNone(s, i);
    assert [] + ms == ms;
    MembersRoundTrip(ms, t, s, i, [], ms);
  }

  /** Where the first member and the separator after it lie. */
  lemma MembersLayout(ms: seq<Member>, s: Bytes, i: nat)
    requires ms != [] && At(s, i, MembersJson(ms) + "}")
    ensures At(s, i, MemberJson(ms[0]))
    ensures var e := i + |MemberJson(ms[0])|;
      e < |s| && (|ms| == 1 ==> s[e] == '}') && (|ms| > 1 ==> s[e] == ',')
    ensures |ms| == 1 ==> |MembersJson(ms)| == |MemberJson(ms[0])|
    ensures |ms| > 1 ==>
      && At(s, i + |MemberJson(ms[0])| + 1, MembersJson(ms[1..]) + "}")
      && |MembersJson(ms)| == |MemberJson(ms[0])| + 1 + |MembersJson(ms[1..])|
  {
    if |ms| == 1 {
      LastMemberLayout(ms, s, i);
    } else {
      MemberThenCommaLayout(ms, s, i);
    }
  }

  lemma LastMemberLayout(ms: seq<Member>, s: Bytes, i: nat)
    requires |ms| == 1 && At(s, i, MembersJson(ms) + "}")
    ensures At(s, i, MemberJson(ms[0]))
    ensures i + |MemberJson(ms[0])| < |s| && s[i + |MemberJson(ms[0])|] == '}'
    ensures |MembersJson(ms)| == |MemberJson(ms[0])|
  {
    assert MembersJson(ms) == MemberJson(ms[0]);
    AtLast(s, i, MemberJson(ms[0]), '}');
  }

  lemma MemberThenCommaLayout(ms: seq<Member>, s: Bytes, i: nat)
    requires |ms| > 1 && At(s, i, MembersJson(ms) + "}")
    ensures At(s, i, MemberJson(ms[0]))
    ensures i + |MemberJson(ms[0])| < |s| && s[i + |MemberJson(ms[0])|] == ','
    ensures At(s, i + |MemberJson(ms[0])| + 1, MembersJson(ms[1..]) + "}")
    ensures |MembersJson(ms)| == |MemberJson(ms[0])| + 1 + |MembersJson(ms[1..])|
  {
    assert MembersJson(ms) == MemberJson(ms[0]) + "," + MembersJson(ms[1..]);
    AtJoin(s, i, MemberJson(ms[0]), ',', MembersJson(ms[1..]), "}");
  }

  /** Where the name, the colon and the value of a member lie. */
  lemma MemberLayout(m: Member, s: Bytes, i: nat)
    requires At(s, i, MemberJson(m))
    ensures var k := i + |StringJson(m.name)|;
      && At(s, i, StringJson(m.name)) && k < |s| && s[k] == ':'
      && At(s, k + 1, ToJson(m.value))
      && k + 1 + |ToJson(m.value)| == i + |MemberJson(m)|
  {
    AtSep(s, i, StringJson(m.name), ':', ToJson(m.value));
  }

  /** A member's name that is not yet among `acc` is appended by `Put`. */
  lemma PutFresh(acc: seq<Member>, ms: seq<Member>)
    requires ms != [] && DistinctNames(acc + ms)
    ensures Put(acc, ms[0].name, ms[0].value) == acc + [ms[0]]
    ensures DistinctNames(acc + [ms[0]] + ms[1..])
  {
    assert ms[0].name !in Names(acc) by {
      forall j | 0 <= j < |acc| ensures acc[j].name != ms[0].name {
        assert (acc + ms)[j] == acc[j] && (acc + ms)[|acc|] == ms[0];
      }
    }
    PutShape(acc, ms[0].name, ms[0].value);
    assert acc + [ms[0]] + ms[1..] == acc + ms;
  }

  /** The values of an object's members, each valid. */
  ghost predicate ValidValues(ms: seq<Member>) {
    forall k | 0 <= k < |ms| :: Valid(ms[k].value)
  }

  /**
   * The members `ms` of an object, rendered as `t`, then its closing brace,
   * read back after the members `acc`: the object is `acc + ms`, here `whole`.
   */
  lemma {:induction false} MembersRoundTrip(ms: seq<Member>, t: Bytes, s: Bytes, i: nat, acc: seq<Member>, whole: seq<Member>)
    requires ms != [] && ValidValues(ms) && acc + ms == whole && DistinctNames(whole)
    requires t == MembersJson(ms) && At(s, i, t + "}")
    ensures Members(s, i, acc) == Ok((Object(whole), i + |t| + 1))
    decreases MembersSize(ms), 6
  {
    var m := ms[0];
    var k, e := FirstMember(ms, t, s, i);
    PutFresh(acc, ms);
    NameThenValue(s, i, acc, m.name, k);
    if |ms| == 1 {
      assert acc + [m] == whole;
      ColonThenBrace(s, m.name, k, acc, m.value, e);
    } else {
      MembersTail(ms, t, s, i, e, acc, whole);
      ColonThenComma(s, m.name, k, acc, m.value, e, Ok((Object(whole), i + |t| + 1)));
    }
  }

  /** The first member reads back up to the separator after it. */
  lemma {:induction false} FirstMember(ms: seq<Member>, t: Bytes, s: Bytes, i: nat) returns (k: nat, e: nat)
    requires ms != [] && ValidValues(ms)
    requires t == MembersJson(ms) && At(s, i, t + "}")
    ensures i < |s| && s[i] == '"' && ParseString(s, i) == Ok((ms[0].name, k))
    ensures k < |s| && s[k] == ':' && ParseValue(s, k + 1) == Ok((ms[0].value, e))
    ensures e < |s| && e == i + |MemberJson(ms[0])|
    ensures |ms| == 1 ==> s[e] == '}' && |t| == |MemberJson(ms[0])|
    ensures |ms| > 1 ==> s[e] == ','
    decreases MembersSize(ms), 5
  {
    MembersLayout(ms, s, i);
    k, e := MemberRoundTrip(ms[0], s, i);
  }

  /** One member reads back up to its end. */
  lemma {:induction false} MemberRoundTrip(m: Member, s: Bytes, i: nat) returns (k: nat, e: nat)
    requires Valid(m.value) && At(s, i, MemberJson(m)) && Delimited(s, i + |MemberJson(m)|)
    ensures i < |s| && s[i] == '"' && ParseString(s, i) == Ok((m.name, k))
    ensures k < |s| && s[k] == ':' && ParseValue(s, k + 1) == Ok((m.value, e))
    ensures e == i + |MemberJson(m)|
    decreases Size(m.value), 4
  {
    MemberLayout(m, s, i);
    k := i + |StringJson(m.name)|;
    e := k + 1 + |ToJson(m.value)|;
    StringRoundTrip(m.name, s, i);
    ValueRoundTrip(m.value, ToJson(m.value), s, k + 1);
  }

  /** The members after the first read back from the first separator on. */
  lemma {:induction false} MembersTail(ms: seq<Member>, t: Bytes, s: Bytes, i: nat, e: nat, acc: seq<Member>, whole: seq<Member>)
    requires |ms| > 1 && ValidValues(ms) && acc + ms == whole && DistinctNames(whole)
    requires t == MembersJson(ms) && At(s, i, t + "}") && e == i + |MemberJson(ms[0])|
    ensures Members(s, e + 1, acc + [ms[0]]) == Ok((Object(whole), i + |t| + 1))
    decreases MembersSize(ms), 5
  {
    MemberThenCommaLayout(ms, s, i);
    var e1 := e + 1;
    var u := MembersJson(ms[1..]);
    ConsAppend(acc, ms, whole);
    ValidValuesTail(ms);
    MembersRoundTrip(ms[1..], u, s, e1, acc + [ms[0]], whole);
  }

  lemma ValidValuesTail(ms: seq<Member>)
    requires ms != [] && ValidValues(ms)
    ensures ValidValues(ms[1..])
  {
    forall k | 0 <= k < |ms[1..]| ensures Valid(ms[1..][k].value) {
      assert ms[1..][k] == ms[k + 1];
    }
  }

  /** A member's name read up to `k`: the object goes on with the colon and the value. */
  lemma NameThenValue(s: Bytes, i: nat, acc: seq<Member>, name: Bytes, k: nat)
    requires i < |s| && s[i] == '"' && ParseString(s, i) == Ok((name, k))
    ensures Members(s, i, acc) == MemberValue(s, name, k, acc)
  {
    SkipNone(s, i);
    MembersStep(s, i, acc);
  }

  /** A colon at `k`, a value read up to `e` and a comma: the object goes on after the comma. */
  lemma ColonThenComma(s: Bytes, name: Bytes, k: nat, acc: seq<Member>, v: Value, e: nat, r: Parsed<Value>)
    requires k < |s| && s[k] == ':' && ParseValue(s, k + 1) == Ok((v, e)) && e < |s| && s[e] == ','
    requires Members(s, e + 1, Put(acc, name, v)) == r
    ensures MemberValue(s, name, k, acc) == r
  {
    SkipNone(s, k);
    MemberSeparatorStep(s, name, k, acc, v, e);
    SkipNone(s, e);
  }

  /** A colon at `k`, a value read up to `e` and the closing brace: the object ends there. */
  lemma ColonThenBrace(s: Bytes, name: Bytes, k: nat, acc: seq<Member>, v: Value, e: nat)
    requires k < |s| && s[k] == ':' && ParseValue(s, k + 1) == Ok((v, e)) && e < |s| && s[e] == '}'
    ensures MemberValue(s, name, k, acc) == Ok((Object(Put(acc, name, v)), e + 1))
  {
    SkipNone(s, k);
    MemberSeparatorStep(s, name, k, acc, v, e);
    SkipNone(s, e);
  }

  // ---------------------------------------------------------------------
  // Whole documents
  // ---------------------------------------------------------------------

  lemma AtWhole(s: Bytes)
    ensures At(s, 0, s)
  {
  }

  /** `test_parse` of the rendering of a valid value gives back the value. */
  lemma DocumentRoundTrip(v: Value, consumeAll: bool)
    requires Valid(v)
    ensures ParseDocument(ToJson(v), consumeAll) == Ok(v)
  {
    AtWhole(ToJson(v));
    ValueRoundTrip(v, ToJson(v), ToJson(v), 0);
  }

  /** `JSONObject::make` of the rendering of a valid object gives back the object. */
  lemma ObjectDocumentRoundTrip(ms: seq<Member>)
    requires ValidMembers(ms)
    ensures ParseObjectDocument(ToJson(Object(ms))) == Ok(Object(ms))
  {
    AtWhole(ToJson(Object(ms)));
    ObjectRoundTrip(ms, ToJson(Object(ms)), 0);
  }

  /** `JSONArray::test_parse` of the rendering of a valid array gives back the array. */
  lemma ArrayDocumentRoundTrip(es: seq<Value>)
    requires Valid(Array(es))
    ensures ParseArrayDocument(ToJson(Array(es))) == Ok(Array(es))
  {
    AtWhole(ToJson(Array(es)));
    ArrayRoundTrip(es, ToJson(Array(es)), 0);
  }
}
