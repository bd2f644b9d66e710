/**
 * The JSON value model of RFC 8259: the tree the parser builds, the ordered
 * member list of an object, and the canonical whitespace-free rendering that
 * `toJSON` produces.
 */
module JsonValues {
  import opened Text
  import opened Results

  /**
   * A JSON value. An object keeps its members in insertion order; a number
   * without fraction or exponent is an `Integer`, any other number a `Float`
   * kept as the decimal lexeme it was read from.
   */
  datatype Value =
    | Null
    | Bool(b: bool)
    | Integer(n: int)
    | Float(lexeme: Bytes)
    | String(s: Bytes)
    | Array(elems: seq<Value>)
    | Object(members: seq<Member>)

  datatype Member = Member(name: Bytes, value: Value)

  const MinInt64: int := -0x8000_0000_0000_0000
  const MaxInt64: int := 0x7FFF_FFFF_FFFF_FFFF

  /** The range of the source's `long long` integers. */
  predicate IsInt64(n: int) { MinInt64 <= n <= MaxInt64 }

  // ---------------------------------------------------------------------
  // Number lexemes: -?digit+(.digit+)?([eE][+-]?digit+)?
  // ---------------------------------------------------------------------

  predicate IsIntPart(t: Bytes) {
    if |t| > 0 && t[0] == '-' then |t| > 1 && AllDigits(t[1..]) else |t| > 0 && AllDigits(t)
  }

  predicate IsFractionPart(t: Bytes) {
    t == [] || (|t| > 1 && t[0] == '.' && AllDigits(t[1..]))
  }

  predicate IsExponentPart(t: Bytes) {
    || t == []
    || (&& |t| > 1 && (t[0] == 'e' || t[0] == 'E')
        && (|| AllDigits(t[1..])
            || (|t| > 2 && (t[1] == '+' || t[1] == '-') && AllDigits(t[2..]))))
  }

  /** A number lexeme with a fraction or an exponent (or both). */
  ghost predicate IsFloatLexeme(t: Bytes) {
    exists p, q | 0 < p <= q <= |t| && p < |t| ::
      IsIntPart(t[..p]) && IsFractionPart(t[p..q]) && IsExponentPart(t[q..])
  }

  // ---------------------------------------------------------------------
  // Objects as ordered member lists
  // ---------------------------------------------------------------------

  function Names(ms: seq<Member>): set<Bytes> {
    set k | 0 <= k < |ms| :: ms[k].name
  }

  predicate DistinctNames(ms: seq<Member>) {
    forall j, k | 0 <= j < k < |ms| :: ms[j].name != ms[k].name
  }

  /** The value of the first member called `name`. */
  function Get(ms: seq<Member>, name: Bytes): (r: Option<Value>)
    ensures r.Some? <==> name in Names(ms)
    decreases |ms|
  {
    if ms == [] then None
    else if ms[0].name == name then Some(ms[0].value)
    else (assert Names(ms) == {ms[0].name} + Names(ms[1..]); Get(ms[1..], name))
  }

  /**
   * Insert a member or replace the value of an existing one in place: the
   * object's `add or replace member` operation.
   */
  function Put(ms: seq<Member>, name: Bytes, v: Value): (r: seq<Member>)
    decreases |ms|
  {
    if ms == [] then [Member(name, v)]
    else if ms[0].name == name then [Member(name, v)] + ms[1..]
    else [ms[0]] + Put(ms[1..], name, v)
  }

  /**
   * `Put` works in place: every member keeps its position and name, members
   * of other names keep their values, and a new name goes at the end.
   */
  lemma {:induction false} PutInPlace(ms: seq<Member>, name: Bytes, v: Value)
    ensures |ms| <= |Put(ms, name, v)| <= |ms| + 1
    ensures forall k | 0 <= k < |ms| :: Put(ms, name, v)[k].name == ms[k].name
    ensures forall k | 0 <= k < |ms| && ms[k].name != name :: Put(ms, name, v)[k] == ms[k]
    ensures |Put(ms, name, v)| == |ms| + 1 ==> Put(ms, name, v)[|ms|] == Member(name, v)
    decreases |ms|
  {
    if ms != [] && ms[0].name != name {
      PutInPlace(ms[1..], name, v);
      var r := Put(ms, name, v);
      assert r == [ms[0]] + Put(ms[1..], name, v);
      forall k | 1 <= k < |ms| ensures r[k].name == ms[k].name && (ms[k].name != name ==> r[k] == ms[k]) {
        assert r[k] == Put(ms[1..], name, v)[k - 1];
        assert ms[1..][k - 1] == ms[k];
      }
    }
  }

  lemma {:induction false} NamesSplit(ms: seq<Member>)
    requires ms != []
    ensures Names(ms) == {ms[0].name} + Names(ms[1..])
  {
    forall x | x in Names(ms) ensures x in {ms[0].name} + Names(ms[1..]) {
      var k :| 0 <= k < |ms| && ms[k].name == x;
      if k > 0 { assert ms[1..][k - 1].name == x; }
    }
    forall x | x in Names(ms[1..]) ensures x in Names(ms) {
      var k :| 0 <= k < |ms[1..]| && ms[1..][k].name == x;
      assert ms[k + 1].name == x;
    }
  }

  /** After a put, the name is present with the new value. */
  lemma {:induction false} GetPutSame(ms: seq<Member>, name: Bytes, v: Value)
    ensures Get(Put(ms, name, v), name) == Some(v)
    decreases |ms|
  {
    if ms != [] && ms[0].name != name {
      GetPutSame(ms[1..], name, v);
      assert Put(ms, name, v)[1..] == Put(ms[1..], name, v);
    }
  }

  /** A put leaves every other name as it was. */
  lemma {:induction false} GetPutOther(ms: seq<Member>, name: Bytes, v: Value, other: Bytes)
    requires other != name
    ensures Get(Put(ms, name, v), other) == Get(ms, other)
    decreases |ms|
  {
    if ms != [] {
      if ms[0].name == name {
        assert Put(ms, name, v)[1..] == ms[1..];
      } else if ms[0].name != other {
        GetPutOther(ms[1..], name, v, other);
        assert Put(ms, name, v)[1..] == Put(ms[1..], name, v);
      }
    }
  }

  /** A put of a new name appends; a put of a present name keeps every position. */
  lemma {:induction false} PutShape(ms: seq<Member>, name: Bytes, v: Value)
    ensures name !in Names(ms) ==> Put(ms, name, v) == ms + [Member(name, v)]
    ensures name in Names(ms) ==> |Put(ms, name, v)| == |ms|
    ensures Names(Put(ms, name, v)) == Names(ms) + {name}
    decreases |ms|
  {
    var r := Put(ms, name, v);
    NamesSplit(r);
    if ms != [] {
      NamesSplit(ms);
      if ms[0].name != name {
        PutShape(ms[1..], name, v);
        assert r[1..] == Put(ms[1..], name, v);
      } else {
        assert r[1..] == ms[1..];
      }
    }
  }

  lemma {:induction false} DistinctNamesSplit(ms: seq<Member>)
    requires ms != []
    ensures DistinctNames(ms) <==> ms[0].name !in Names(ms[1..]) && DistinctNames(ms[1..])
  {
    if DistinctNames(ms) {
      forall k | 0 <= k < |ms[1..]| ensures ms[1..][k].name != ms[0].name {
        assert ms[1..][k] == ms[k + 1];
      }
      forall j, k | 0 <= j < k < |ms[1..]| ensures ms[1..][j].name != ms[1..][k].name {
        assert ms[j + 1].name != ms[k + 1].name;
      }
    }
    if ms[0].name !in Names(ms[1..]) && DistinctNames(ms[1..]) {
      forall j, k | 0 <= j < k < |ms| ensures ms[j].name != ms[k].name {
        if j == 0 {
          assert ms[1..][k - 1].name == ms[k].name;
        } else {
          assert ms[1..][j - 1].name != ms[1..][k - 1].name;
        }
      }
    }
  }

  /** A put keeps the names of an object distinct. */
  lemma {:induction false} PutKeepsDistinct(ms: seq<Member>, name: Bytes, v: Value)
    requires DistinctNames(ms)
    ensures DistinctNames(Put(ms, name, v))
    decreases |ms|
  {
    var r := Put(ms, name, v);
    if ms != [] {
      DistinctNamesSplit(ms);
      DistinctNamesSplit(r);
      if ms[0].name == name {
        assert r[1..] == ms[1..];
      } else {
        PutKeepsDistinct(ms[1..], name, v);
        PutShape(ms[1..], name, v);
        assert r[1..] == Put(ms[1..], name, v);
      }
    }
  }

  // ---------------------------------------------------------------------
  // Well-formed values: what the source's JSONValue classes can hold
  // ---------------------------------------------------------------------

  /**
   * A value the source can represent: integers fit in 64 bits, a float is a
   * number lexeme, and the members of every object have distinct names.
   */
  ghost predicate Valid(v: Value)
    decreases v
  {
    match v
    case Integer(n) => IsInt64(n)
    case Float(t) => IsFloatLexeme(t)
    case Array(es) => forall k | 0 <= k < |es| :: Valid(es[k])
    case Object(ms) => DistinctNames(ms) && forall k | 0 <= k < |ms| :: Valid(ms[k].value)
    case _ => true
  }

  ghost predicate ValidMembers(ms: seq<Member>) {
    Valid(Object(ms))
  }

  /** Putting a valid value into a valid object keeps it valid. */
  lemma {:induction false} PutKeepsValid(ms: seq<Member>, name: Bytes, v: Value)
    requires ValidMembers(ms) && Valid(v)
    ensures ValidMembers(Put(ms, name, v))
    decreases |ms|
  {
    PutKeepsDistinct(ms, name, v);
    var r := Put(ms, name, v);
    if ms != [] {
      if ms[0].name == name {
        assert r[1..] == ms[1..];
        forall k | 0 <= k < |r| ensures Valid(r[k].value) {
          if k > 0 { assert r[k] == ms[k]; }
        }
      } else {
        assert ValidMembers(ms[1..]) by {
          DistinctNamesSplit(ms);
          forall k | 0 <= k < |ms[1..]| ensures Valid(ms[1..][k].value) { assert ms[1..][k] == ms[k + 1]; }
        }
        PutKeepsValid(ms[1..], name, v);
        assert r[1..] == Put(ms[1..], name, v);
        forall k | 0 <= k < |r| ensures Valid(r[k].value) {
          if k > 0 { assert r[k] == Put(ms[1..], name, v)[k - 1]; }
        }
      }
    }
  }

  // ---------------------------------------------------------------------
  // Canonical rendering (toJSON)
  // ---------------------------------------------------------------------

  function HexDigit(d: nat): (c: Byte)
    requires d < 16
  {
    if d < 10 then DigitChar(d) else (d - 10 + 'a' as int) as char
  }

  /** The escape a byte needs inside a string literal, or the byte itself. */
  function EscapeByte(c: Byte): (t: Bytes)
    ensures |t| > 0
  {
    if c == '"' then "\\\""
    else if c == '\\' then "\\\\"
    else if c as int == 0x08 then "\\b"
    else if c as int == 0x0C then "\\f"
    else if c == '\n' then "\\n"
    else if c == '\r' then "\\r"
    else if c == '\t' then "\\t"
    else if c as int < 0x10 then "\\u000" + [HexDigit(c as int)]
    else if c as int < 0x20 then "\\u001" + [HexDigit(c as int - 0x10)]
    else [c]
  }

  function Escape(s: Bytes): Bytes
    decreases |s|
  {
    if s == [] then [] else EscapeByte(s[0]) + Escape(s[1..])
  }

  /** A byte that `toJSON` writes as itself inside a string literal. */
  predicate IsPlain(c: Byte) {
    c as int >= 0x20 && c != '"' && c != '\\'
  }

  /** Text made of plain bytes is written unchanged. */
  lemma {:induction false} EscapePlain(s: Bytes)
    requires forall k | 0 <= k < |s| :: IsPlain(s[k])
    ensures Escape(s) == s
    decreases |s|
  {
    if s != [] {
      EscapePlain(s[1..]);
    }
  }

  function IntegerJson(n: int): Bytes {
    if n < 0 then "-" + Decimal(-n) else Decimal(n)
  }

  function StringJson(s: Bytes): Bytes {
    "\"" + Escape(s) + "\""
  }

  /** The text `toJSON` produces: no whitespace, members in insertion order. */
  function ToJson(v: Value): Bytes
    decreases v
  {
    match v
    case Null => "null"
    case Bool(b) => if b then "true" else "false"
    case Integer(n) => IntegerJson(n)
    case Float(t) => t
    case String(s) => StringJson(s)
    case Array(es) => "[" + ElementsJson(es) + "]"
    case Object(ms) => "{" + MembersJson(ms) + "}"
  }

  /** Elements separated by commas. */
  function ElementsJson(es: seq<Value>): Bytes
    decreases es
  {
    if es == [] then []
    else if |es| == 1 then ToJson(es[0])
    else ToJson(es[0]) + "," + ElementsJson(es[1..])
  }

  /** `"name":value` pairs separated by commas. */
  function MembersJson(ms: seq<Member>): Bytes
    decreases ms
  {
    if ms == [] then []
    else if |ms| == 1 then MemberJson(ms[0])
    else MemberJson(ms[0]) + "," + MembersJson(ms[1..])
  }

  function MemberJson(m: Member): Bytes
    decreases m
  {
    StringJson(m.name) + ":" + ToJson(m.value)
  }

  /**
   * Containers and strings are written between their delimiters, and an
   * integer as a numeral whose sign is written exactly when it is negative.
   */
  lemma ToJsonDelimited(v: Value)
    ensures v.Object? ==> |ToJson(v)| >= 2 && ToJson(v)[0] == '{' && ToJson(v)[|ToJson(v)| - 1] == '}'
    ensures v.Array? ==> |ToJson(v)| >= 2 && ToJson(v)[0] == '[' && ToJson(v)[|ToJson(v)| - 1] == ']'
    ensures v.String? ==> |ToJson(v)| >= 2 && ToJson(v)[0] == '"' && ToJson(v)[|ToJson(v)| - 1] == '"'
    ensures v.Integer? ==> |ToJson(v)| > 0 && (ToJson(v)[0] == '-' <==> v.n < 0) && (v.n >= 0 ==> IsDigit(ToJson(v)[0]))
  {
  }
}
