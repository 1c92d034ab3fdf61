/** Wavefront face-corner tokens ("p", "p/uv", "p/uv/n", "p//n") as the
    OBJVertex constructor of include/geometry.h (and its copy in
    include/mesh.h) reads them. */
module ObjVertices {

  /** 2^32: uint32_t values are residues modulo this. */
  const U32: int := 0x1_0000_0000

  /** (uint32_t) -1: the value of a field the token does not give. */
  const SENTINEL: nat := 0xFFFF_FFFF

  const INT_MIN: int := -0x8000_0000
  const INT_MAX: int := 0x7FFF_FFFF

  /** Conversion of an integer to uint32_t: reduction modulo 2^32. */
  function Wrap(k: int): (r: nat)
    ensures r < U32
    ensures (k - r) % U32 == 0
  {
    k % U32
  }

  // ---- QString::split with empty parts kept ----

  /** The parts of s between occurrences of sep, empty parts included. */
  function Split(s: string, sep: char): (parts: seq<string>)
    ensures |parts| >= 1
    ensures forall i :: 0 <= i < |parts| ==> sep !in parts[i]
    decreases |s|
  {
    if |s| == 0 then [""]
    else
      var rest := Split(s[1..], sep);
      if s[0] == sep then [""] + rest
      else [[s[0]] + rest[0]] + rest[1..]
  }

  /** The parts rejoined with sep between them. */
  function Join(parts: seq<string>, sep: char): string
    requires |parts| >= 1
  {
    if |parts| == 1 then parts[0] else parts[0] + [sep] + Join(parts[1..], sep)
  }

  /** Rejoining the parts of s gives s back. */
  lemma {:induction false} JoinSplit(s: string, sep: char)
    ensures Join(Split(s, sep), sep) == s
    decreases |s|
  {
    if |s| > 0 {
      var rest := Split(s[1..], sep);
      JoinSplit(s[1..], sep);
      if s[0] != sep {
        if |rest| == 1 {
          assert Split(s, sep) == [[s[0]] + rest[0]];
        } else {
          assert Split(s, sep) == [[s[0]] + rest[0]] + rest[1..];
          assert Split(s, sep)[1..] == rest[1..];
          assert Join(rest, sep) == rest[0] + [sep] + Join(rest[1..], sep);
        }
      } else {
        assert Split(s, sep)[1..] == rest;
      }
    }
  }

  /** A string free of sep is one part. */
  lemma {:induction false} SplitWhole(x: string, sep: char)
    requires sep !in x
    ensures Split(x, sep) == [x]
    decreases |x|
  {
    if |x| > 0 {
      SplitWhole(x[1..], sep);
      assert [x[0]] + x[1..] == x;
    }
  }

  /** A sep-free prefix followed by sep is the first part. */
  lemma {:induction false} SplitAfterPart(x: string, y: string, sep: char)
    requires sep !in x
    ensures Split(x + [sep] + y, sep) == [x] + Split(y, sep)
    decreases |x|
  {
    if |x| == 0 {
      assert x + [sep] + y == [sep] + y;
      assert ([sep] + y)[1..] == y;
    } else {
      assert (x + [sep] + y)[1..] == x[1..] + [sep] + y;
      SplitAfterPart(x[1..], y, sep);
      assert [x[0]] + x[1..] == x;
    }
  }

  /** Splitting the join of sep-free parts gives the parts back. */
  lemma {:induction false} SplitJoin(parts: seq<string>, sep: char)
    requires |parts| >= 1
    requires forall i :: 0 <= i < |parts| ==> sep !in parts[i]
    ensures Split(Join(parts, sep), sep) == parts
    decreases |parts|
  {
    if |parts| == 1 {
      SplitWhole(parts[0], sep);
    } else {
      SplitJoin(parts[1..], sep);
      SplitAfterPart(parts[0], Join(parts[1..], sep), sep);
      assert [parts[0]] + parts[1..] == parts;
    }
  }

  // ---- QString::toInt in base 10 ----

  /** QChar::isSpace: the controls U+0009..U+000D and U+0085, and the
      Unicode space, line and paragraph separators. */
  predicate IsSpace(c: char)
  {
    c in QT_SPACES
  }

  const QT_SPACES: set<char> := {
    '\t', '\n', '\U{B}', '\U{C}', '\r', ' ', '\U{85}', '\U{A0}', '\U{1680}',
    '\U{2000}', '\U{2001}', '\U{2002}', '\U{2003}', '\U{2004}', '\U{2005}', '\U{2006}',
    '\U{2007}', '\U{2008}', '\U{2009}', '\U{200A}',
    '\U{2028}', '\U{2029}', '\U{202F}', '\U{205F}', '\U{3000}'}

  predicate IsDigit(c: char)
  {
    48 <= c as int <= 57
  }

  /** The string without its leading and trailing white space. */
  function Trim(s: string): (t: string)
    ensures |t| > 0 ==> !IsSpace(t[0]) && !IsSpace(t[|t| - 1])
    decreases |s|
  {
    if |s| == 0 then s
    else if IsSpace(s[0]) then Trim(s[1..])
    else if IsSpace(s[|s| - 1]) then Trim(s[..|s| - 1])
    else s
  }

  /** The number an all-digit string spells in base 10. */
  function DigitsValue(s: string): nat
    requires forall i :: 0 <= i < |s| ==> IsDigit(s[i])
  {
    if |s| == 0 then 0
    else
      assert IsDigit(s[|s| - 1]);
      10 * DigitsValue(s[..|s| - 1]) + (s[|s| - 1] as int - 48)
  }

  /** toInt: white space around an optionally signed run of decimal digits;
      0 when the text is anything else or the value is outside int. */
  function ToInt(s: string): (r: int)
    ensures INT_MIN <= r <= INT_MAX
  {
    var t := Trim(s);
    if |t| == 0 then 0
    else
      var negative := t[0] == '-';
      var digits := if t[0] == '-' || t[0] == '+' then t[1..] else t;
      if |digits| == 0 || exists i :: 0 <= i < |digits| && !IsDigit(digits[i]) then 0
      else
        var v: int := if negative then -(DigitsValue(digits) as int) else DigitsValue(digits);
        if INT_MIN <= v <= INT_MAX then v else 0
  }

  /** The decimal spelling of k, without sign or leading zeros. */
  function Decimal(k: nat): (s: string)
    ensures |s| >= 1
    ensures forall i :: 0 <= i < |s| ==> IsDigit(s[i])
  {
    if k < 10 then [(48 + k) as char]
    else Decimal(k / 10) + [(48 + k % 10) as char]
  }

  lemma {:induction false} DecimalValue(k: nat)
    ensures DigitsValue(Decimal(k)) == k
  {
    if k >= 10 {
      DecimalValue(k / 10);
      var s := Decimal(k);
      assert s[..|s| - 1] == Decimal(k / 10);
    }
  }

  /** toInt reads back every int-sized decimal spelling. */
  lemma DecimalToInt(k: nat)
    requires k <= INT_MAX
    ensures ToInt(Decimal(k)) == k
  {
    var s := Decimal(k);
    assert !IsSpace(s[0]) && !IsSpace(s[|s| - 1]);
    assert Trim(s) == s;
    DecimalValue(k);
  }

  // ---- OBJVertex ----

  /** A face corner: position, normal and texture-coordinate indices,
      0-based, as uint32_t. */
  datatype ObjVertex = ObjVertex(p: nat, n: nat, uv: nat)

  /** An index field: the token's number minus one, modulo 2^32. */
  function Field(token: string): (r: nat)
    ensures r < U32
  {
    Wrap(ToInt(token) - 1)
  }

  /** An optional field: read only from a non-empty token. */
  function OptionalField(token: string): (r: nat)
    ensures r < U32
  {
    if |token| > 0 then Field(token) else SENTINEL
  }

  /** What a field holds: a positive 1-based index becomes its 0-based value;
      a token that reads as 0 (no number, or "0") gives the sentinel, and so
      does an empty optional token. */
  lemma FieldValues(token: string)
    ensures ToInt(token) >= 1 ==> Field(token) == OptionalField(token) == ToInt(token) - 1
    ensures ToInt(token) == 0 ==> Field(token) == OptionalField(token) == SENTINEL
    ensures |token| == 0 ==> OptionalField(token) == SENTINEL
  {
  }

  /** OBJVertex(string): p from the first '/'-separated token; uv and n only
      when there are exactly three tokens, each only from a non-empty token;
      every field left unread holds the sentinel. */
  function ParseVertex(s: string): (v: ObjVertex)
    ensures v.p < U32 && v.n < U32 && v.uv < U32
    ensures v.p == Field(Split(s, '/')[0])
    ensures |Split(s, '/')| != 3 ==> v.n == SENTINEL && v.uv == SENTINEL
  {
    var tokens := Split(s, '/');
    var p := Field(tokens[0]);
    if |tokens| == 3 then ObjVertex(p, OptionalField(tokens[2]), OptionalField(tokens[1]))
    else ObjVertex(p, SENTINEL, SENTINEL)
  }

  /** operator==: equal exactly when all three fields are equal. */
  function SameVertex(a: ObjVertex, b: ObjVertex): (r: bool)
    ensures r <==> a == b
  {
    b.p == a.p && b.n == a.n && b.uv == a.uv
  }

  /** Three '/'-free tokens joined by '/' fill all fields that are given. */
  lemma ParseThreeTokens(a: string, b: string, c: string)
    requires '/' !in a && '/' !in b && '/' !in c
    ensures ParseVertex(a + "/" + b + "/" + c) == ObjVertex(Field(a), OptionalField(c), OptionalField(b))
  {
    var tail := b + ['/'] + c;
    assert Split(tail, '/') == [b, c] by {
      SplitAfterPart(b, c, '/');
      SplitWhole(c, '/');
    }
    assert a + "/" + b + "/" + c == a + ['/'] + tail;
    SplitAfterPart(a, tail, '/');
    ParseOfThreeParts(a + ['/'] + tail, a, b, c);
  }

  lemma ParseOfThreeParts(s: string, a: string, b: string, c: string)
    requires Split(s, '/') == [a, b, c]
    ensures ParseVertex(s) == ObjVertex(Field(a), OptionalField(c), OptionalField(b))
  {
  }

  /** Two '/'-free tokens leave uv and n at the sentinel. */
  lemma ParseTwoTokens(a: string, b: string)
    requires '/' !in a && '/' !in b
    ensures ParseVertex(a + "/" + b) == ObjVertex(Field(a), SENTINEL, SENTINEL)
  {
    SplitWhole(b, '/');
    SplitAfterPart(a, b, '/');
  }

  lemma DecimalHasNoSlash(k: nat)
    ensures '/' !in Decimal(k)
  {
    var s := Decimal(k);
    assert forall i :: 0 <= i < |s| ==> IsDigit(s[i]);
  }

  /** The field read from the decimal spelling of a 1-based index is that
      index minus one. */
  lemma FieldOfDecimal(a: nat)
    requires 1 <= a <= INT_MAX
    ensures Field(Decimal(a)) == a - 1 && OptionalField(Decimal(a)) == a - 1
    ensures '/' !in Decimal(a)
  {
    DecimalToInt(a);
    DecimalHasNoSlash(a);
  }

  /** "a" gives p = a - 1 and the sentinel in uv and n. */
  lemma ParseIndexOnly(a: nat)
    requires 1 <= a <= INT_MAX
    ensures ParseVertex(Decimal(a)) == ObjVertex(a - 1, SENTINEL, SENTINEL)
  {
    FieldOfDecimal(a);
    SplitWhole(Decimal(a), '/');
  }

  /** An absent token (the empty string) leaves every field at 0xFFFFFFFF:
      toInt fails, giving 0, and 0 - 1 wraps round. */
  lemma ParseEmpty()
    ensures ParseVertex("") == ObjVertex(SENTINEL, SENTINEL, SENTINEL)
  {
    assert Split("", '/') == [""];
  }

  /** "0" has no 1-based meaning: p wraps round to 0xFFFFFFFF. */
  lemma ParseZeroWraps()
    ensures ParseVertex("0").p == SENTINEL
  {
    assert "0" == Decimal(0);
    DecimalHasNoSlash(0);
    SplitWhole("0", '/');
    DecimalToInt(0);
  }

  /** "a/b/c" gives p = a - 1, uv = b - 1, n = c - 1. */
  lemma ParseFull(a: nat, b: nat, c: nat)
    requires 1 <= a <= INT_MAX && 1 <= b <= INT_MAX && 1 <= c <= INT_MAX
    ensures ParseVertex(Decimal(a) + "/" + Decimal(b) + "/" + Decimal(c)) == ObjVertex(a - 1, c - 1, b - 1)
  {
    FieldOfDecimal(a);
    FieldOfDecimal(b);
    FieldOfDecimal(c);
    ParseThreeTokens(Decimal(a), Decimal(b), Decimal(c));
  }

  /** "a//c" gives p = a - 1 and n = c - 1, and leaves uv at the sentinel. */
  lemma ParseWithoutTexture(a: nat, c: nat)
    requires 1 <= a <= INT_MAX && 1 <= c <= INT_MAX
    ensures ParseVertex(Decimal(a) + "//" + Decimal(c)) == ObjVertex(a - 1, c - 1, SENTINEL)
  {
    var da, dc := Decimal(a), Decimal(c);
    FieldOfDecimal(a);
    FieldOfDecimal(c);
    assert da + "//" + dc == da + "/" + "" + "/" + dc by {
      SlashSlash(da, dc);
    }
    ParseThreeTokens(da, "", dc);
  }

  lemma SlashSlash(x: string, y: string)
    ensures x + "//" + y == x + "/" + "" + "/" + y
  {
    assert "/" + "" + "/" == "//";
  }

  /** "a/b" gives p = a - 1 and leaves uv and n at the sentinel. */
  lemma ParsePair(a: nat, b: nat)
    requires 1 <= a <= INT_MAX && 1 <= b <= INT_MAX
    ensures ParseVertex(Decimal(a) + "/" + Decimal(b)) == ObjVertex(a - 1, SENTINEL, SENTINEL)
  {
    FieldOfDecimal(a);
    FieldOfDecimal(b);
    ParseTwoTokens(Decimal(a), Decimal(b));
  }
}
