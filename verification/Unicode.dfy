/** Text as the two implementations hold it: UTF-16 code units in TypeScript,
    UTF-8 bytes in Rust, with the scalar values that both stand for. */
module Unicode {
  type Byte = b: nat | b < 0x100
  type Bytes = seq<Byte>
  type Unit = u: nat | u < 0x10000
  type Units = seq<Unit>
  type CodePoint = c: nat | c < 0x110000

  predicate IsHigh(u: nat) { 0xD800 <= u <= 0xDBFF }

  predicate IsLow(u: nat) { 0xDC00 <= u <= 0xDFFF }

  predicate IsSurrogate(u: nat) { 0xD800 <= u <= 0xDFFF }

  function JoinPair(hi: Unit, lo: Unit): CodePoint
    requires IsHigh(hi) && IsLow(lo)
  {
    0x10000 + (hi - 0xD800) * 0x400 + (lo - 0xDC00)
  }

  predicate StartsWithPair(s: Units) {
    |s| >= 2 && IsHigh(s[0]) && IsLow(s[1])
  }

  /** The code points a JavaScript string iterator yields; an unpaired
      surrogate stands for itself. */
  function CodePoints(s: Units): seq<CodePoint> {
    if s == [] then []
    else if StartsWithPair(s) then [JoinPair(s[0], s[1])] + CodePoints(s[2..])
    else [s[0]] + CodePoints(s[1..])
  }

  /** Every surrogate of the string belongs to a pair. */
  predicate IsScalarString(s: Units) {
    if s == [] then true
    else if StartsWithPair(s) then IsScalarString(s[2..])
    else !IsSurrogate(s[0]) && IsScalarString(s[1..])
  }

  /** Well-formed text is what Rust's `String` can hold. */
  type Text = s: Units | IsScalarString(s)

  /** The scan of `assertScalarString`, with `None`-on-throw as `ok == false`. */
  method AssertScalarString(value: Units) returns (ok: bool)
    ensures ok <==> IsScalarString(value)
  {
    var index := 0;
    while index < |value|
      invariant index <= |value|
      invariant IsScalarString(value) <==> IsScalarString(value[index..])
    {
      var unit := value[index];
      if IsHigh(unit) {
        if !(index + 1 < |value| && IsLow(value[index + 1])) {
          return false;
        }
        assert value[index..][2..] == value[index + 2..];
        index := index + 1;
      } else if IsLow(unit) {
        return false;
      } else {
        assert value[index..][1..] == value[index + 1..];
      }
      index := index + 1;
    }
    return true;
  }

  // ---- UTF-8, section 3 of RFC 3629 ----

  function Utf8Of(c: CodePoint): Bytes {
    if c < 0x80 then [c]
    else if c < 0x800 then [0xC0 + c / 0x40, 0x80 + c % 0x40]
    else if c < 0x10000 then Lead3(c / 0x40) + [0x80 + c % 0x40]
    else Lead4(c / 0x40 / 0x40) + [0x80 + c / 0x40 % 0x40, 0x80 + c % 0x40]
  }

  function Lead3(c: nat): Bytes
    requires c < 0x400
  {
    [0xE0 + c / 0x40, 0x80 + c % 0x40]
  }

  function Lead4(c: nat): Bytes
    requires c < 0x110
  {
    [0xF0 + c / 0x40, 0x80 + c % 0x40]
  }

  /** A byte that follows another one in a sequence. */
  predicate IsContinuation(b: Byte) { 0x80 <= b < 0xC0 }

  /** What the bits of the bytes behind the length prefix `lead` add up to. */
  function BitsOf(lead: nat, b: Bytes): int {
    if b == [] then 0
    else if |b| == 1 then b[0] as int - lead
    else BitsOf(lead, b[..|b| - 1]) * 0x40 + (b[|b| - 1] as int - 0x80)
  }

  /** The bytes are those of the table in section 3 of RFC 3629: as few as the
      code point needs, with its bits in order behind the length prefix. */
  lemma Utf8OfTable(c: CodePoint)
    ensures var b := Utf8Of(c);
            (c < 0x80 ==> b == [c])
            && (0x80 <= c < 0x800 ==> |b| == 2 && 0xC0 <= b[0] < 0xE0 && BitsOf(0xC0, b) == c)
            && (0x800 <= c < 0x10000 ==> |b| == 3 && 0xE0 <= b[0] < 0xF0 && BitsOf(0xE0, b) == c)
            && (0x10000 <= c ==> |b| == 4 && 0xF0 <= b[0] < 0xF8 && BitsOf(0xF0, b) == c)
            && forall i | 1 <= i < |b| :: IsContinuation(b[i])
  {
    var b := Utf8Of(c);
    assert c == c / 0x40 * 0x40 + c % 0x40;
    assert c / 0x40 == c / 0x40 / 0x40 * 0x40 + c / 0x40 % 0x40;
    assert c / 0x40 / 0x40 == c / 0x40 / 0x40 / 0x40 * 0x40 + c / 0x40 / 0x40 % 0x40;
    if |b| > 2 {
      var lead := if |b| == 3 then 0xE0 else 0xF0;
      assert b[..2][..1] == b[..1];
      assert BitsOf(lead, b[..2]) == (b[0] as int - lead) * 0x40 + (b[1] as int - 0x80);
      if |b| == 4 { assert b[..3][..2] == b[..2]; }
    }
  }

  /** A pair carries the upper and the lower ten bits above 0x10000. */
  lemma PairOf(hi: Unit, lo: Unit)
    requires IsHigh(hi) && IsLow(lo)
    ensures 0x10000 <= JoinPair(hi, lo)
    ensures hi == 0xD800 + (JoinPair(hi, lo) - 0x10000) / 0x400
    ensures lo == 0xDC00 + (JoinPair(hi, lo) - 0x10000) % 0x400
  {
  }

  function Utf8(cs: seq<CodePoint>): Bytes {
    if cs == [] then [] else Utf8Of(cs[0]) + Utf8(cs[1..])
  }

  function Utf8Units(s: Units): Bytes { Utf8(CodePoints(s)) }

  // ---- Lexicographic order ----

  predicate LexLess(a: seq<nat>, b: seq<nat>) {
    b != [] && (a == [] || a[0] < b[0] || (a[0] == b[0] && LexLess(a[1..], b[1..])))
  }

  /** The two sequences differ at a position both have, and `a` is lower there. */
  predicate Below(a: seq<nat>, b: seq<nat>) {
    a != [] && b != [] && (a[0] < b[0] || (a[0] == b[0] && Below(a[1..], b[1..])))
  }

  lemma {:induction false} LexTotal(a: seq<nat>, b: seq<nat>)
    ensures a == b || LexLess(a, b) || LexLess(b, a)
    ensures !(LexLess(a, b) && LexLess(b, a))
    ensures a == b ==> !LexLess(a, b)
  {
    if a != [] && b != [] && a[0] == b[0] {
      LexTotal(a[1..], b[1..]);
      assert a == [a[0]] + a[1..] && b == [b[0]] + b[1..];
    }
  }

  lemma {:induction false} LexTransitive(a: seq<nat>, b: seq<nat>, c: seq<nat>)
    requires LexLess(a, b) && LexLess(b, c)
    ensures LexLess(a, c)
  {
    if a != [] && a[0] == b[0] == c[0] {
      LexTransitive(a[1..], b[1..], c[1..]);
    }
  }

  lemma {:induction false} BelowExtends(a: seq<nat>, b: seq<nat>, x: seq<nat>, y: seq<nat>)
    requires Below(a, b)
    ensures LexLess(a + x, b + y)
  {
    if a[0] == b[0] {
      BelowExtends(a[1..], b[1..], x, y);
      assert (a + x)[1..] == a[1..] + x && (b + y)[1..] == b[1..] + y;
    }
  }

  lemma {:induction false} LexCommonPrefix(p: seq<nat>, a: seq<nat>, b: seq<nat>)
    ensures LexLess(p + a, p + b) <==> LexLess(a, b)
  {
    if p == [] {
      assert p + a == a && p + b == b;
    } else {
      LexCommonPrefix(p[1..], a, b);
      assert (p + a)[1..] == p[1..] + a && (p + b)[1..] == p[1..] + b;
    }
  }

  /** Two numbers with base-64 digits `q, r` compare digit by digit. */
  lemma DigitOrder(c: nat, d: nat)
    requires c < d
    ensures c / 0x40 < d / 0x40 || (c / 0x40 == d / 0x40 && c % 0x40 < d % 0x40)
  {
  }

  lemma {:induction false} BelowSnoc(a: seq<nat>, x: nat, b: seq<nat>, y: nat)
    requires Below(a, b) || (a == b && x < y)
    ensures Below(a + [x], b + [y])
  {
    if a == [] || b == [] {
      assert a + [x] == [x] && b + [y] == [y];
    } else {
      assert (a + [x])[1..] == a[1..] + [x] && (b + [y])[1..] == b[1..] + [y];
      if a[0] == b[0] {
        BelowSnoc(a[1..], x, b[1..], y);
      }
    }
  }

  lemma LeadOrder(c: nat, d: nat)
    requires c < d
    ensures d < 0x400 ==> Below(Lead3(c), Lead3(d))
    ensures d < 0x110 ==> Below(Lead4(c), Lead4(d))
  {
    DigitOrder(c, d);
    if d < 0x400 {
      assert Lead3(c) == [0xE0 + c / 0x40] + [0x80 + c % 0x40];
      assert Lead3(d) == [0xE0 + d / 0x40] + [0x80 + d % 0x40];
      BelowSnoc([0xE0 + c / 0x40], 0x80 + c % 0x40, [0xE0 + d / 0x40], 0x80 + d % 0x40);
    }
    if d < 0x110 {
      assert Lead4(c) == [0xF0 + c / 0x40] + [0x80 + c % 0x40];
      assert Lead4(d) == [0xF0 + d / 0x40] + [0x80 + d % 0x40];
      BelowSnoc([0xF0 + c / 0x40], 0x80 + c % 0x40, [0xF0 + d / 0x40], 0x80 + d % 0x40);
    }
  }

  lemma Utf8OfOrder4(c: CodePoint, d: CodePoint)
    requires 0x10000 <= c < d
    ensures Below(Utf8Of(c), Utf8Of(d))
  {
    var c1, d1 := c / 0x40, d / 0x40;
    var c2, d2 := c1 / 0x40, d1 / 0x40;
    DigitOrder(c, d);
    if c1 < d1 {
      DigitOrder(c1, d1);
      if c2 < d2 {
        LeadOrder(c2, d2);
      }
      BelowSnoc(Lead4(c2), 0x80 + c1 % 0x40, Lead4(d2), 0x80 + d1 % 0x40);
    }
    BelowSnoc(Lead4(c2) + [0x80 + c1 % 0x40], 0x80 + c % 0x40, Lead4(d2) + [0x80 + d1 % 0x40], 0x80 + d % 0x40);
    assert Utf8Of(c) == Lead4(c2) + [0x80 + c1 % 0x40] + [0x80 + c % 0x40];
    assert Utf8Of(d) == Lead4(d2) + [0x80 + d1 % 0x40] + [0x80 + d % 0x40];
  }

  lemma Utf8OfOrder(c: CodePoint, d: CodePoint)
    requires c < d
    ensures Below(Utf8Of(c), Utf8Of(d))
  {
    if c < 0x80 || (c < 0x800 && d >= 0x800) || (c < 0x10000 && d >= 0x10000) {
      assert Utf8Of(c)[0] < Utf8Of(d)[0];
    } else if d < 0x800 {
      DigitOrder(c, d);
      hide Below;
      assert Utf8Of(c) == [0xC0 + c / 0x40] + [0x80 + c % 0x40];
      assert Utf8Of(d) == [0xC0 + d / 0x40] + [0x80 + d % 0x40];
      BelowSnoc([0xC0 + c / 0x40], 0x80 + c % 0x40, [0xC0 + d / 0x40], 0x80 + d % 0x40);
    } else if d < 0x10000 {
      DigitOrder(c, d);
      if c / 0x40 < d / 0x40 {
        LeadOrder(c / 0x40, d / 0x40);
      }
      BelowSnoc(Lead3(c / 0x40), 0x80 + c % 0x40, Lead3(d / 0x40), 0x80 + d % 0x40);
    } else {
      Utf8OfOrder4(c, d);
    }
  }

  /** Section 1 of RFC 3629: sorting UTF-8 by byte value sorts by code point. */
  lemma {:induction false} Utf8Order(a: seq<CodePoint>, b: seq<CodePoint>)
    ensures LexLess(Utf8(a), Utf8(b)) <==> LexLess(a, b)
  {
    if b == [] {
    } else if a == [] {
      assert Utf8(b) != [];
    } else if a[0] == b[0] {
      Utf8Order(a[1..], b[1..]);
      LexCommonPrefix(Utf8Of(a[0]), Utf8(a[1..]), Utf8(b[1..]));
    } else if a[0] < b[0] {
      Utf8OfOrder(a[0], b[0]);
      BelowExtends(Utf8Of(a[0]), Utf8Of(b[0]), Utf8(a[1..]), Utf8(b[1..]));
    } else {
      Utf8OfOrder(b[0], a[0]);
      BelowExtends(Utf8Of(b[0]), Utf8Of(a[0]), Utf8(b[1..]), Utf8(a[1..]));
      LexTotal(Utf8(a), Utf8(b));
    }
  }

  lemma {:induction false} CodePointsInjective(a: Units, b: Units)
    requires CodePoints(a) == CodePoints(b)
    ensures a == b
    decreases |a|
  {
    if a != [] {
      assert CodePoints(a)[0] == CodePoints(b)[0];
      if StartsWithPair(a) {
        assert StartsWithPair(b);
        assert CodePoints(a)[1..] == CodePoints(a[2..]) && CodePoints(b)[1..] == CodePoints(b[2..]);
        CodePointsInjective(a[2..], b[2..]);
        assert a == [a[0], a[1]] + a[2..] && b == [b[0], b[1]] + b[2..];
      } else {
        assert CodePoints(a)[1..] == CodePoints(a[1..]) && CodePoints(b)[1..] == CodePoints(b[1..]);
        CodePointsInjective(a[1..], b[1..]);
        assert a == [a[0]] + a[1..] && b == [b[0]] + b[1..];
      }
    }
  }

  /** The two encodings carry the same text. */
  lemma Utf8UnitsInjective(a: Units, b: Units)
    requires Utf8Units(a) == Utf8Units(b)
    ensures a == b
  {
    Utf8Order(CodePoints(a), CodePoints(b));
    Utf8Order(CodePoints(b), CodePoints(a));
    LexTotal(CodePoints(a), CodePoints(b));
    LexTotal(Utf8Units(a), Utf8Units(b));
    CodePointsInjective(a, b);
  }

  lemma Assoc<T>(a: seq<T>, b: seq<T>, c: seq<T>)
    ensures a + (b + c) == (a + b) + c
  {
  }

  /** Splitting is harmless behind a well-formed prefix. */
  lemma {:induction false} CodePointsConcat(a: Units, b: Units)
    requires IsScalarString(a)
    ensures CodePoints(a + b) == CodePoints(a) + CodePoints(b)
    ensures IsScalarString(a + b) <==> IsScalarString(b)
    decreases |a|
  {
    if a == [] {
      assert a + b == b;
    } else if StartsWithPair(a) {
      CodePointsConcat(a[2..], b);
      var head, tail := [JoinPair(a[0], a[1])], CodePoints(a[2..]);
      assert (a + b)[0] == a[0] && (a + b)[1] == a[1] && (a + b)[2..] == a[2..] + b;
      assert CodePoints(a + b) == head + CodePoints(a[2..] + b);
      Assoc(head, tail, CodePoints(b));
    } else {
      CodePointsConcat(a[1..], b);
      var head: seq<CodePoint> := [a[0]];
      assert (a + b)[0] == a[0] && (a + b)[1..] == a[1..] + b;
      assert CodePoints(a + b) == head + CodePoints(a[1..] + b);
      Assoc(head, CodePoints(a[1..]), CodePoints(b));
    }
  }

  lemma {:induction false} Utf8Concat(a: seq<CodePoint>, b: seq<CodePoint>)
    ensures Utf8(a + b) == Utf8(a) + Utf8(b)
  {
    if a == [] {
      assert a + b == b;
    } else {
      Utf8Concat(a[1..], b);
      assert (a + b)[0] == a[0] && (a + b)[1..] == a[1..] + b;
      Assoc(Utf8Of(a[0]), Utf8(a[1..]), Utf8(b));
    }
  }

  lemma Utf8UnitsConcat(a: Units, b: Units)
    requires IsScalarString(a)
    ensures Utf8Units(a + b) == Utf8Units(a) + Utf8Units(b)
    ensures IsScalarString(a + b) <==> IsScalarString(b)
  {
    CodePointsConcat(a, b);
    Utf8Concat(CodePoints(a), CodePoints(b));
  }

  /** ASCII, the alphabet of field names, domains and punctuation. */
  predicate IsAscii(s: Units) { forall i | 0 <= i < |s| :: s[i] < 0x80 }

  lemma {:induction false} AsciiIsItself(s: Units)
    requires IsAscii(s)
    ensures IsScalarString(s) && Utf8Units(s) == s
  {
    if s != [] {
      AsciiIsItself(s[1..]);
      assert CodePoints(s)[1..] == CodePoints(s[1..]);
      assert s == [s[0]] + s[1..];
    }
  }

  /** A literal of the source as code units. */
  function Ascii(s: string): (u: Units)
    requires forall i | 0 <= i < |s| :: s[i] as int < 0x80
    ensures |u| == |s| && IsAscii(u)
  {
    seq(|s|, i requires 0 <= i < |s| => s[i] as int)
  }

  /** Compares by code point, as `compareUnicodeScalars` does. */
  method CompareUnicodeScalars(left: Units, right: Units) returns (order: int)
    ensures order < 0 <==> LexLess(CodePoints(left), CodePoints(right))
    ensures order == 0 <==> left == right
  {
    var leftPoints, rightPoints := CodePoints(left), CodePoints(right);
    var length := if |leftPoints| < |rightPoints| then |leftPoints| else |rightPoints|;
    var index := 0;
    assert left == right <==> leftPoints == rightPoints by {
      if leftPoints == rightPoints { CodePointsInjective(left, right); }
    }
    while index < length
      invariant index <= length
      invariant LexLess(leftPoints, rightPoints) <==> LexLess(leftPoints[index..], rightPoints[index..])
      invariant left == right <==> leftPoints[index..] == rightPoints[index..]
    {
      var l, r := leftPoints[index..], rightPoints[index..];
      assert l[0] == leftPoints[index] && r[0] == rightPoints[index];
      if leftPoints[index] != rightPoints[index] {
        return if leftPoints[index] < rightPoints[index] then -1 else 1;
      }
      assert l[1..] == leftPoints[index + 1..] && r[1..] == rightPoints[index + 1..];
      assert l == [l[0]] + l[1..] && r == [r[0]] + r[1..];
      index := index + 1;
    }
    return |leftPoints| - |rightPoints|;
  }
}
