/**
 * The base64url encoding of section 5 of RFC 4648, without padding, as the
 * JWS compact serialization uses it (section 2 of RFC 7515): every three
 * bytes become four symbols of the URL- and filename-safe alphabet, a final
 * group of one or two bytes becomes two or three symbols.
 */
module Base64Url {
  import opened Text
  import opened Results

  datatype DecodeError = BadLength | BadSymbol | NonCanonical

  /** The symbol for a six-bit value: A-Z, a-z, 0-9, `-`, `_`. */
  function Symbol(d: Sextet): (c: Byte)
    ensures IsSymbol(c) && SymbolValue(c) == d
  {
    if d < 26 then (d + 'A' as int) as char
    else if d < 52 then (d - 26 + 'a' as int) as char
    else if d < 62 then (d - 52 + '0' as int) as char
    else if d == 62 then '-'
    else '_'
  }

  predicate IsSymbol(c: Byte) {
    ('A' <= c <= 'Z') || ('a' <= c <= 'z') || ('0' <= c <= '9') || c == '-' || c == '_'
  }

  function SymbolValue(c: Byte): (d: Sextet)
    requires IsSymbol(c)
  {
    if 'A' <= c <= 'Z' then c as int - 'A' as int
    else if 'a' <= c <= 'z' then c as int - 'a' as int + 26
    else if '0' <= c <= '9' then c as int - '0' as int + 52
    else if c == '-' then 62
    else 63
  }

  /** The symbols of a text, one per byte, and their six-bit values back. */
  function Spell(v: seq<Sextet>): (t: Bytes)
    ensures |t| == |v| && AllSymbols(t)
  {
    seq(|v|, k requires 0 <= k < |v| => Symbol(v[k]))
  }

  function Values(t: Bytes): (v: seq<Sextet>)
    requires AllSymbols(t)
    ensures |v| == |t|
  {
    seq(|t|, k requires 0 <= k < |t| => SymbolValue(t[k]))
  }

  type Sextet = d: nat | d < 64

  predicate AllSymbols(t: Bytes) {
    forall k | 0 <= k < |t| :: IsSymbol(t[k])
  }

  // ---------------------------------------------------------------------
  // Groups of three bytes and four six-bit values
  // ---------------------------------------------------------------------

  /**
   * The six-bit values of a text: every three bytes give four, a final
   * group of two bytes gives three and a final single byte gives two, the
   * unused low bits being zero.
   */
  function Sextets(b: Bytes): (v: seq<Sextet>)
    ensures |v| % 4 != 1
    ensures |v| == 0 <==> |b| == 0
    ensures Canonical(v)
    decreases |b|
  {
    if |b| >= 3 then Split3(b[0], b[1], b[2]) + Sextets(b[3..])
    else if |b| == 2 then Split3(b[0], b[1], 0 as char)[..3]
    else if |b| == 1 then Split3(b[0], 0 as char, 0 as char)[..2]
    else []
  }

  /** The four six-bit values of three bytes, high bits first. */
  function Split3(x: Byte, y: Byte, z: Byte): (v: seq<Sextet>)
    ensures |v| == 4
  {
    [x as int / 4, x as int % 4 * 16 + y as int / 16, y as int % 16 * 4 + z as int / 64, z as int % 64]
  }

  /** The bytes of four six-bit values (`d` is dropped when only two or three are due). */
  function Group(a: Sextet, b: Sextet, c: Sextet, d: Sextet): (r: Bytes)
    ensures |r| == 3
  {
    [(a * 4 + b / 16) as char, (b % 16 * 16 + c / 4) as char, (c % 4 * 64 + d) as char]
  }

  function Unsextets(v: seq<Sextet>): (b: Bytes)
    requires |v| % 4 != 1
    decreases |v|
  {
    if |v| >= 4 then Group(v[0], v[1], v[2], v[3]) + Unsextets(v[4..])
    else if |v| == 3 then Group(v[0], v[1], v[2], 0)[..2]
    else if |v| == 2 then Group(v[0], v[1], 0, 0)[..1]
    else []
  }

  // ---------------------------------------------------------------------
  // Whole texts
  // ---------------------------------------------------------------------

  /**
   * The last of two or three final values carries low bits that no byte
   * fills (four and two of them); an encoder leaves them zero (section 3.5
   * of RFC 4648).
   */
  predicate Canonical(v: seq<Sextet>) {
    && (|v| % 4 == 2 ==> v[|v| - 1] % 16 == 0)
    && (|v| % 4 == 3 ==> v[|v| - 1] % 4 == 0)
  }

  /** Encoding without padding: four symbols for every three bytes, rounded up. */
  function Encode(b: Bytes): (t: Bytes)
    ensures |t| == |Sextets(b)| && AllSymbols(t)
  {
    Spell(Sextets(b))
  }

  /**
   * Decoding: a length that leaves a single symbol over, a byte outside the
   * alphabet, or a final symbol whose unused bits are not zero, fails.
   */
  function Decode(t: Bytes): (r: Result<Bytes, DecodeError>)
    ensures r.Ok? <==> |t| % 4 != 1 && AllSymbols(t) && Canonical(Values(t))
    ensures |t| % 4 == 1 ==> r == Err(BadLength)
    ensures |t| % 4 != 1 && !AllSymbols(t) ==> r == Err(BadSymbol)
    ensures |t| % 4 != 1 && AllSymbols(t) && !Canonical(Values(t)) ==> r == Err(NonCanonical)
  {
    if |t| % 4 == 1 then Err(BadLength)
    else if !AllSymbols(t) then Err(BadSymbol)
    else if !Canonical(Values(t)) then Err(NonCanonical)
    else Ok(Unsextets(Values(t)))
  }

  // ---------------------------------------------------------------------
  // Properties
  // ---------------------------------------------------------------------

  /** Reading back the symbols of a spelling gives its values. */
  lemma ValuesSpell(v: seq<Sextet>)
    ensures Values(Spell(v)) == v
  {
    var t := Spell(v);
    forall k | 0 <= k < |v| ensures Values(t)[k] == v[k] {
      assert t[k] == Symbol(v[k]);
    }
  }

  /** The bytes of the values of three bytes are those bytes again. */
  lemma GroupSplit3(x: Byte, y: Byte, z: Byte)
    ensures var v := Split3(x, y, z); Group(v[0], v[1], v[2], v[3]) == [x, y, z]
  {
    var b, c := x as int % 4 * 16 + y as int / 16, y as int % 16 * 4 + z as int / 64;
    assert b / 16 == x as int % 4 && b % 16 == y as int / 16;
    assert c / 4 == y as int % 16 && c % 4 == z as int / 64;
  }

  lemma {:induction false} SextetsRoundTrip(b: Bytes)
    ensures Unsextets(Sextets(b)) == b
    decreases |b|
  {
    if |b| >= 3 {
      SextetsRoundTrip(b[3..]);
      LongRoundTrip(b[0], b[1], b[2], b[3..], b);
    } else {
      ShortRoundTrip(b);
    }
  }

  lemma LongRoundTrip(x: Byte, y: Byte, z: Byte, rest: Bytes, b: Bytes)
    requires b == [x, y, z] + rest
    requires Unsextets(Sextets(rest)) == rest
    ensures Unsextets(Sextets(b)) == b
  {
    var v := Split3(x, y, z);
    assert b[3..] == rest;
    UnsextetsFront(v, Sextets(rest));
    GroupSplit3(x, y, z);
  }

  lemma UnsextetsFront(g: seq<Sextet>, w: seq<Sextet>)
    requires |g| == 4 && |w| % 4 != 1
    ensures Unsextets(g + w) == Group(g[0], g[1], g[2], g[3]) + Unsextets(w)
  {
    assert (g + w)[4..] == w;
  }

  lemma ShortRoundTrip(b: Bytes)
    requires |b| < 3
    ensures Unsextets(Sextets(b)) == b
  {
    if |b| == 2 {
      PairRoundTrip(b[0], b[1], b);
    } else if |b| == 1 {
      SingleRoundTrip(b[0], b);
    }
  }

  lemma PairRoundTrip(x: Byte, y: Byte, b: Bytes)
    requires b == [x, y]
    ensures Unsextets(Sextets(b)) == b
  {
    var v := Split3(x, y, 0 as char);
    assert Sextets(b) == v[..3];
    GroupSplit3(x, y, 0 as char);
  }

  lemma SingleRoundTrip(x: Byte, b: Bytes)
    requires b == [x]
    ensures Unsextets(Sextets(b)) == b
  {
    var v := Split3(x, 0 as char, 0 as char);
    assert Sextets(b) == v[..2];
    GroupSplit3(x, 0 as char, 0 as char);
  }

  /** Decoding an encoding gives back the bytes. */
  lemma DecodeEncode(b: Bytes)
    ensures Decode(Encode(b)) == Ok(b)
  {
    ValuesSpell(Sextets(b));
    SextetsRoundTrip(b);
  }

  /** Every symbol is the spelling of its own value. */
  lemma SymbolOfValue(c: Byte)
    requires IsSymbol(c)
    ensures Symbol(SymbolValue(c)) == c
  {
  }

  /** Spelling the values of a text of symbols gives the text back. */
  lemma SpellValues(t: Bytes)
    requires AllSymbols(t)
    ensures Spell(Values(t)) == t
  {
    forall k | 0 <= k < |t| ensures Spell(Values(t))[k] == t[k] {
      SymbolOfValue(t[k]);
    }
  }

  /** The values of the bytes of four values are those values again. */
  lemma SplitGroup(a: Sextet, b: Sextet, c: Sextet, d: Sextet)
    ensures var g := Group(a, b, c, d); Split3(g[0], g[1], g[2]) == [a, b, c, d]
  {
    var x, y, z := a * 4 + b / 16, b % 16 * 16 + c / 4, c % 4 * 64 + d;
    assert x / 4 == a && x % 4 == b / 16;
    assert y / 16 == b % 16 && y % 16 == c / 4;
    assert z / 64 == c % 4 && z % 64 == d;
  }

  /** Canonical values, regrouped into bytes and split again, are unchanged. */
  lemma {:induction false} UnsextetsRoundTrip(v: seq<Sextet>)
    requires |v| % 4 != 1 && Canonical(v)
    ensures Sextets(Unsextets(v)) == v
    decreases |v|
  {
    if |v| >= 4 {
      var rest := v[4..];
      assert Canonical(rest) by {
        assert |rest| % 4 == |v| % 4;
        if |rest| > 0 { assert rest[|rest| - 1] == v[|v| - 1]; }
      }
      UnsextetsRoundTrip(rest);
      GroupFront(v[0], v[1], v[2], v[3], rest, v);
    } else if |v| == 3 {
      TripleRoundTrip(v[0], v[1], v[2], v);
    } else if |v| == 2 {
      PairValuesRoundTrip(v[0], v[1], v);
    }
  }

  lemma GroupFront(a: Sextet, b: Sextet, c: Sextet, d: Sextet, rest: seq<Sextet>, v: seq<Sextet>)
    requires v == [a, b, c, d] + rest && |rest| % 4 != 1
    requires Sextets(Unsextets(rest)) == rest
    ensures Sextets(Unsextets(v)) == v
  {
    var g := Group(a, b, c, d);
    var w := Unsextets(rest);
    UnsextetsFront([a, b, c, d], rest);
    SextetsFront(g, w);
    SplitGroup(a, b, c, d);
    assert Sextets(g + w) == [a, b, c, d] + rest;
  }

  /** Every three bytes become four symbols, and a tail of one or two bytes two or three. */
  lemma {:induction false} EncodeLength(b: Bytes)
    ensures |Encode(b)| == (4 * |b| + 2) / 3
    decreases |b|
  {
    if |b| >= 3 {
      EncodeLength(b[3..]);
      assert |Sextets(b)| == 4 + |Sextets(b[3..])|;
    }
  }

  lemma SextetsFront(g: Bytes, w: Bytes)
    requires |g| == 3
    ensures Sextets(g + w) == Split3(g[0], g[1], g[2]) + Sextets(w)
  {
    var u := g + w;
    assert u[0] == g[0] && u[1] == g[1] && u[2] == g[2] && u[3..] == w;
  }

  lemma TripleRoundTrip(a: Sextet, b: Sextet, c: Sextet, v: seq<Sextet>)
    requires v == [a, b, c] && c % 4 == 0
    ensures Sextets(Unsextets(v)) == v
  {
    var g := Group(a, b, c, 0);
    assert Unsextets(v) == [g[0], g[1]];
    SplitGroup(a, b, c, 0);
    assert g[2] as int / 64 == 0;
  }

  lemma PairValuesRoundTrip(a: Sextet, b: Sextet, v: seq<Sextet>)
    requires v == [a, b] && b % 16 == 0
    ensures Sextets(Unsextets(v)) == v
  {
    var g := Group(a, b, 0, 0);
    assert Unsextets(v) == [g[0]];
    SplitGroup(a, b, 0, 0);
    assert g[1] as int / 16 == 0;
  }

  /** Whatever decodes is the encoding of what it decodes to. */
  lemma EncodeDecode(t: Bytes)
    requires Decode(t).Ok?
    ensures Encode(Decode(t).value) == t
  {
    UnsextetsRoundTrip(Values(t));
    SpellValues(t);
  }

  /** Two texts that decode to the same bytes are the same text. */
  lemma DecodeInjective(t: Bytes, u: Bytes)
    requires Decode(t).Ok? && Decode(t) == Decode(u)
    ensures t == u
  {
    EncodeDecode(t);
    EncodeDecode(u);
  }

  /** Only the empty text encodes to nothing. */
  lemma EncodeEmpty(b: Bytes)
    ensures Encode(b) == [] <==> b == []
  {
  }

  /** No encoding holds a `.`, so encoded segments can be joined with dots and split again. */
  lemma EncodeHasNoDot(b: Bytes)
    ensures '.' !in Encode(b)
  {
    var t := Encode(b);
    assert forall k | 0 <= k < |t| :: t[k] != '.';
  }
}
