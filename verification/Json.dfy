/** The ETP JSON subset, its resource budget, and its canonical encoding as the
    TypeScript and the Rust implementation each compute it. */
module Json {
  import opened Unicode

  datatype Option<+T> = None | Some(value: T)

  const MAX_SAFE_INTEGER: nat := 9_007_199_254_740_991
  const MAX_DEPTH: nat := 64
  const MAX_NODES: nat := 100_000

  /** A JSON value. A string is held as UTF-16 code units, so that an ill-formed
      JavaScript string can be expressed; members are unordered. */
  datatype Value =
    | Null
    | Bool(flag: bool)
    | Num(number: int)
    | Str(units: Units)
    | Arr(items: seq<Value>)
    | Obj(members: map<Units, Value>)

  predicate IsSafeInteger(n: int) { -(MAX_SAFE_INTEGER as int) <= n <= MAX_SAFE_INTEGER }

  /** The value has a canonical encoding: safe integers and well-formed strings. */
  ghost predicate Encodable(v: Value) {
    match v
    case Num(n) => IsSafeInteger(n)
    case Str(s) => IsScalarString(s)
    case Arr(items) => forall i | 0 <= i < |items| :: Encodable(items[i])
    case Obj(m) => forall k | k in m :: IsScalarString(k) && Encodable(m[k])
    case _ => true
  }

  // ---- Key order ----

  /** TypeScript sorts keys by code point, Rust's `BTreeMap<&str>` by byte. */
  datatype KeyOrder = ByScalar | ByByte

  function SortKey(o: KeyOrder, k: Units): seq<nat> {
    match o
    case ByScalar => CodePoints(k)
    case ByByte => Utf8Units(k)
  }

  predicate KeyLess(o: KeyOrder, a: Units, b: Units) {
    LexLess(SortKey(o, a), SortKey(o, b))
  }

  lemma KeyTotal(o: KeyOrder, a: Units, b: Units)
    ensures a == b || KeyLess(o, a, b) || KeyLess(o, b, a)
    ensures !(KeyLess(o, a, b) && KeyLess(o, b, a))
    ensures !KeyLess(o, a, a)
  {
    LexTotal(SortKey(o, a), SortKey(o, b));
    LexTotal(SortKey(o, a), SortKey(o, a));
    if SortKey(o, a) == SortKey(o, b) {
      if o.ByScalar? { CodePointsInjective(a, b); } else { Utf8UnitsInjective(a, b); }
    }
  }

  lemma OrdersAgree(a: Units, b: Units)
    ensures KeyLess(ByScalar, a, b) <==> KeyLess(ByByte, a, b)
  {
    Utf8Order(CodePoints(a), CodePoints(b));
  }

  predicate IsLeastKey(o: KeyOrder, k: Units, ks: set<Units>) {
    k in ks && forall j | j in ks :: j == k || KeyLess(o, k, j)
  }

  lemma {:induction false} LeastKeyExists(o: KeyOrder, ks: set<Units>)
    requires ks != {}
    ensures exists k :: IsLeastKey(o, k, ks)
    decreases ks
  {
    var j :| j in ks;
    if ks == {j} {
      assert IsLeastKey(o, j, ks);
    } else {
      assert ks - {j} != {} by {
        assert ks <= {j} <==> ks == {j};
      }
      LeastKeyExists(o, ks - {j});
      var k :| IsLeastKey(o, k, ks - {j});
      KeyTotal(o, j, k);
      if KeyLess(o, j, k) {
        forall i | i in ks ensures i == j || KeyLess(o, j, i) {
          if i != j && i != k {
            assert i in ks - {j};
            LexTransitive(SortKey(o, j), SortKey(o, k), SortKey(o, i));
          }
        }
        assert IsLeastKey(o, j, ks);
      } else {
        assert IsLeastKey(o, k, ks);
      }
    }
  }

  function LeastKey(o: KeyOrder, ks: set<Units>): (k: Units)
    requires ks != {}
    ensures IsLeastKey(o, k, ks)
  {
    LeastKeyExists(o, ks);
    assert forall a, b | IsLeastKey(o, a, ks) && IsLeastKey(o, b, ks) :: a == b by {
      forall a, b | IsLeastKey(o, a, ks) && IsLeastKey(o, b, ks) ensures a == b { KeyTotal(o, a, b); }
    }
    var k :| k in ks && IsLeastKey(o, k, ks);
    k
  }

  /** The keys in strictly increasing order. */
  function SortedKeys(o: KeyOrder, ks: set<Units>): (r: seq<Units>)
    ensures |r| == |ks|
    ensures forall k :: k in r <==> k in ks
    decreases ks
  {
    if ks == {} then []
    else
      var k := LeastKey(o, ks);
      [k] + SortedKeys(o, ks - {k})
  }

  /** Sorting by UTF-8 bytes and sorting by code points is the same sort. */
  lemma {:induction false} SortedKeysAgree(ks: set<Units>)
    ensures SortedKeys(ByScalar, ks) == SortedKeys(ByByte, ks)
    decreases ks
  {
    if ks != {} {
      var a, b := LeastKey(ByScalar, ks), LeastKey(ByByte, ks);
      OrdersAgree(a, b);
      OrdersAgree(b, a);
      KeyTotal(ByScalar, a, b);
      SortedKeysAgree(ks - {a});
    }
  }

  // ---- Tokens ----

  const LBRACE: Unit := 0x7B
  const RBRACE: Unit := 0x7D
  const LBRACKET: Unit := 0x5B
  const RBRACKET: Unit := 0x5D
  const COMMA: Unit := 0x2C
  const COLON: Unit := 0x3A
  const QUOTE: Unit := 0x22
  const BACKSLASH: Unit := 0x5C
  const MINUS: Unit := 0x2D
  const ZERO: Unit := 0x30
  const LOWER_U: Unit := 0x75
  const TRUE: Units := [0x74, 0x72, 0x75, 0x65]
  const FALSE: Units := [0x66, 0x61, 0x6C, 0x73, 0x65]
  const NULL: Units := [0x6E, 0x75, 0x6C, 0x6C]

  function Digits(n: nat): (r: Units)
    ensures |r| >= 1
    ensures IsAscii(r)
  {
    if n < 10 then [ZERO + n] else Digits(n / 10) + [ZERO + n % 10]
  }

  function Decimal(n: int): (r: Units)
    ensures |r| >= 1 && IsAscii(r)
  {
    if n < 0 then [MINUS] + Digits(-n) else Digits(n)
  }

  function HexDigit(n: nat): Unit
    requires n < 16
  {
    if n < 10 then 0x30 + n else 0x57 + n
  }

  /** One code unit inside a canonical string; units above 0x1F other than the
      quotation mark and the reverse solidus stand for themselves. */
  function Escape(u: Unit): Units {
    if u == QUOTE then [BACKSLASH, QUOTE]
    else if u == BACKSLASH then [BACKSLASH, BACKSLASH]
    else if u == 0x08 then [BACKSLASH, 0x62]
    else if u == 0x09 then [BACKSLASH, 0x74]
    else if u == 0x0A then [BACKSLASH, 0x6E]
    else if u == 0x0C then [BACKSLASH, 0x66]
    else if u == 0x0D then [BACKSLASH, 0x72]
    else if u <= 0x1F then [BACKSLASH, LOWER_U, ZERO, ZERO, HexDigit(u / 16), HexDigit(u % 16)]
    else [u]
  }

  function EscapeAll(s: Units): Units {
    if s == [] then [] else Escape(s[0]) + EscapeAll(s[1..])
  }

  function Quote(s: Units): Units { [QUOTE] + EscapeAll(s) + [QUOTE] }

  function Pair(k: Units, member: Units): Units { Quote(k) + [COLON] + member }

  /** `parts.join(",")`. */
  function Join<T>(comma: T, parts: seq<seq<T>>): seq<T> {
    if parts == [] then [] else parts[0] + JoinRest(comma, parts[1..])
  }

  function JoinRest<T>(comma: T, parts: seq<seq<T>>): seq<T> {
    if parts == [] then [] else [comma] + parts[0] + JoinRest(comma, parts[1..])
  }

  // ---- The canonical encoding of TypeScript, as UTF-16 text ----

  function Encode(v: Value): Units
    decreases v, 2
  {
    match v
    case Null => NULL
    case Bool(b) => if b then TRUE else FALSE
    case Num(n) => Decimal(n)
    case Str(s) => Quote(s)
    case Arr(items) => [LBRACKET] + Join(COMMA, EncodeItems(v)) + [RBRACKET]
    case Obj(m) => [LBRACE] + Join(COMMA, EncodeMembers(v)) + [RBRACE]
  }

  function EncodeItems(v: Value): (r: seq<Units>)
    requires v.Arr?
    decreases v, 0
  {
    seq(|v.items|, i requires 0 <= i < |v.items| => Encode(v.items[i]))
  }

  function EncodeMembers(v: Value): (r: seq<Units>)
    requires v.Obj?
    decreases v, 1
  {
    var ks := SortedKeys(ByScalar, v.members.Keys);
    seq(|ks|, i requires 0 <= i < |ks| => assert ks[i] in ks; EncodeMember(v, ks[i]))
  }

  function EncodeMember(v: Value, k: Units): Units
    requires v.Obj? && k in v.members
    decreases v, 0
  {
    Pair(k, Encode(v.members[k]))
  }

  // ---- The canonical encoding of Rust, as UTF-8 bytes ----

  function EscapeBytes(s: Bytes): Bytes {
    if s == [] then [] else EscapeByte(s[0]) + EscapeBytes(s[1..])
  }

  /** `serde_json` escapes byte by byte; bytes of 0x80 and above pass through. */
  function EscapeByte(b: Byte): (r: Bytes)
    ensures r == Escape(b)
  {
    if b < 0x80 then AsciiEscape(b); Escape(b) else [b]
  }

  lemma AsciiEscape(u: Unit)
    requires u < 0x80
    ensures IsAscii(Escape(u))
  {
  }

  function QuoteBytes(s: Units): Bytes { [QUOTE] + EscapeBytes(Utf8Units(s)) + [QUOTE] }

  function PairBytes(k: Units, member: Bytes): Bytes { QuoteBytes(k) + [COLON_BYTE] + member }

  const COMMA_BYTE: Byte := 0x2C
  const COLON_BYTE: Byte := 0x3A

  function RustEncode(v: Value): Bytes
    decreases v, 2
  {
    match v
    case Null => NULL
    case Bool(b) => if b then TRUE else FALSE
    case Num(n) => Decimal(n)
    case Str(s) => QuoteBytes(s)
    case Arr(items) => [LBRACKET] + Join(COMMA_BYTE, RustItems(v)) + [RBRACKET]
    case Obj(m) => [LBRACE] + Join(COMMA_BYTE, RustMembers(v)) + [RBRACE]
  }

  function RustItems(v: Value): (r: seq<Bytes>)
    requires v.Arr?
    decreases v, 1
  {
    seq(|v.items|, i requires 0 <= i < |v.items| => RustItem(v, i))
  }

  function RustItem(v: Value, i: nat): Bytes
    requires v.Arr? && i < |v.items|
    decreases v, 0
  {
    RustEncode(v.items[i])
  }

  function RustMembers(v: Value): (r: seq<Bytes>)
    requires v.Obj?
    decreases v, 1
  {
    var ks := SortedKeys(ByByte, v.members.Keys);
    seq(|ks|, i requires 0 <= i < |ks| => assert ks[i] in ks; RustMember(v, ks[i]))
  }

  function RustMember(v: Value, k: Units): Bytes
    requires v.Obj? && k in v.members
    decreases v, 0
  {
    PairBytes(k, RustEncode(v.members[k]))
  }

  // ---- Both encodings are the same bytes ----

  lemma {:induction false} EscapeBytesConcat(a: Bytes, b: Bytes)
    ensures EscapeBytes(a + b) == EscapeBytes(a) + EscapeBytes(b)
  {
    hide Escape, EscapeByte;
    if a == [] {
      assert a + b == b;
    } else {
      EscapeBytesConcat(a[1..], b);
      var e := EscapeByte(a[0]);
      assert (a + b)[0] == a[0] && (a + b)[1..] == a[1..] + b;
      assert EscapeBytes(a + b) == e + EscapeBytes(a[1..] + b);
      Assoc(e, EscapeBytes(a[1..]), EscapeBytes(b));
    }
  }

  lemma {:induction false} EscapeBytesHigh(a: Bytes)
    requires forall i | 0 <= i < |a| :: a[i] >= 0x80
    ensures EscapeBytes(a) == a
  {
    if a != [] {
      EscapeBytesHigh(a[1..]);
      assert a == [a[0]] + a[1..];
    }
  }

  lemma EscapeBytesOfPoint(c: CodePoint)
    ensures EscapeBytes(Utf8Of(c)) == if c < 0x80 then Escape(c) else Utf8Of(c)
  {
    if c < 0x80 {
      assert Utf8Of(c)[1..] == [];
    } else {
      EscapeBytesHigh(Utf8Of(c));
    }
  }

  /** Escaping commutes with encoding to UTF-8. */
  lemma {:induction false} EscapeCommutes(s: Units)
    requires IsScalarString(s)
    ensures IsScalarString(EscapeAll(s))
    ensures Utf8Units(EscapeAll(s)) == EscapeBytes(Utf8Units(s))
    decreases |s|
  {
    if s == [] {
    } else if StartsWithPair(s) {
      EscapeCommutes(s[2..]);
      var c := JoinPair(s[0], s[1]);
      EscapeAllPair(s);
      OnePoint([s[0], s[1]], c);
      Utf8UnitsConcat([s[0], s[1]], EscapeAll(s[2..]));
      EscapeStep(c, s);
      assert CodePoints(s)[1..] == CodePoints(s[2..]);
    } else {
      EscapeCommutes(s[1..]);
      var c: CodePoint := s[0];
      EscapeStep(c, s);
      assert CodePoints(s)[1..] == CodePoints(s[1..]);
      EscapedPoint(s[0]);
      Utf8UnitsConcat(Escape(s[0]), EscapeAll(s[1..]));
    }
  }

  lemma EscapedPoint(u: Unit)
    requires !IsSurrogate(u)
    ensures IsScalarString(Escape(u))
    ensures Utf8Units(Escape(u)) == if u < 0x80 then Escape(u) else Utf8Of(u)
  {
    if u < 0x80 {
      AsciiEscape(u);
      AsciiIsItself(Escape(u));
    } else {
      OnePoint([u], u);
    }
  }

  lemma EscapeAllPair(s: Units)
    requires StartsWithPair(s)
    ensures EscapeAll(s) == [s[0], s[1]] + EscapeAll(s[2..])
  {
    assert Escape(s[0]) == [s[0]] && Escape(s[1]) == [s[1]];
    hide Escape;
    assert s[1..][1..] == s[2..];
    assert EscapeAll(s) == [s[0]] + EscapeAll(s[1..]);
    assert EscapeAll(s[1..]) == [s[1]] + EscapeAll(s[2..]);
  }

  lemma OnePoint(s: Units, c: CodePoint)
    requires (|s| == 1 && !IsSurrogate(s[0]) && c == s[0])
          || (|s| == 2 && StartsWithPair(s) && c == JoinPair(s[0], s[1]))
    ensures IsScalarString(s) && Utf8Units(s) == Utf8Of(c)
  {
    assert s[|s|..] == [];
    assert CodePoints(s) == [c];
    assert Utf8([c]) == Utf8Of(c) + Utf8([]);
  }

  lemma EscapeStep(c: CodePoint, s: Units)
    requires s != [] && CodePoints(s)[0] == c
    ensures EscapeBytes(Utf8Units(s))
         == (if c < 0x80 then Escape(c) else Utf8Of(c)) + EscapeBytes(Utf8(CodePoints(s)[1..]))
  {
    EscapeBytesConcat(Utf8Of(c), Utf8(CodePoints(s)[1..]));
    EscapeBytesOfPoint(c);
  }

  lemma QuoteAgrees(s: Units)
    requires IsScalarString(s)
    ensures IsScalarString(Quote(s)) && Utf8Units(Quote(s)) == QuoteBytes(s)
  {
    EscapeCommutes(s);
    AsciiIsItself([QUOTE]);
    Utf8UnitsConcat([QUOTE], EscapeAll(s));
    Utf8UnitsConcat([QUOTE] + EscapeAll(s), [QUOTE]);
  }

  lemma Bracketed(open: Unit, body: Units, close: Unit)
    requires open < 0x80 && close < 0x80 && IsScalarString(body)
    ensures IsScalarString([open] + body + [close])
    ensures Utf8Units([open] + body + [close]) == [open] + Utf8Units(body) + [close]
  {
    AsciiIsItself([open]);
    AsciiIsItself([close]);
    Utf8UnitsConcat([open], body);
    Utf8UnitsConcat([open] + body, [close]);
  }

  lemma PairAgrees(k: Units, member: Units)
    requires IsScalarString(k) && IsScalarString(member)
    ensures IsScalarString(Pair(k, member))
    ensures Utf8Units(Pair(k, member)) == PairBytes(k, Utf8Units(member))
  {
    QuoteAgrees(k);
    AsciiIsItself([COLON]);
    Utf8UnitsConcat(Quote(k), [COLON]);
    Utf8UnitsConcat(Quote(k) + [COLON], member);
  }

  /** The texts in `a` are well-formed and `b` holds their UTF-8 forms. */
  ghost predicate SameTexts(a: seq<Units>, b: seq<Bytes>) {
    |a| == |b| && forall i | 0 <= i < |a| :: IsScalarString(a[i]) && Utf8Units(a[i]) == b[i]
  }

  lemma {:induction false} JoinRestAgrees(a: seq<Units>, b: seq<Bytes>)
    requires SameTexts(a, b)
    ensures IsScalarString(JoinRest(COMMA, a))
    ensures Utf8Units(JoinRest(COMMA, a)) == JoinRest(COMMA_BYTE, b)
  {
    if a != [] {
      JoinRestAgrees(a[1..], b[1..]);
      AsciiIsItself([COMMA]);
      Utf8UnitsConcat([COMMA], a[0]);
      Utf8UnitsConcat([COMMA] + a[0], JoinRest(COMMA, a[1..]));
    }
  }

  lemma JoinAgrees(a: seq<Units>, b: seq<Bytes>)
    requires SameTexts(a, b)
    ensures IsScalarString(Join(COMMA, a)) && Utf8Units(Join(COMMA, a)) == Join(COMMA_BYTE, b)
  {
    if a != [] {
      JoinRestAgrees(a[1..], b[1..]);
      Utf8UnitsConcat(a[0], JoinRest(COMMA, a[1..]));
    }
  }

  /** On every encodable value the Rust encoder writes exactly the UTF-8 form of
      what the TypeScript encoder writes. */
  lemma {:induction false} EncodersAgree(v: Value)
    requires Encodable(v)
    ensures IsScalarString(Encode(v)) && Utf8Units(Encode(v)) == RustEncode(v)
    decreases v
  {
    match v
    case Null => AsciiIsItself(NULL);
    case Bool(b) => AsciiIsItself(if b then TRUE else FALSE);
    case Num(n) => AsciiIsItself(Decimal(n));
    case Str(s) => QuoteAgrees(s);
    case Arr(items) =>
      forall i | 0 <= i < |items|
        ensures IsScalarString(EncodeItems(v)[i]) && Utf8Units(EncodeItems(v)[i]) == RustItems(v)[i]
      {
        EncodersAgree(items[i]);
      }
      JoinAgrees(EncodeItems(v), RustItems(v));
      Bracketed(LBRACKET, Join(COMMA, EncodeItems(v)), RBRACKET);
    case Obj(m) =>
      SortedKeysAgree(m.Keys);
      var ks := SortedKeys(ByScalar, m.Keys);
      forall i | 0 <= i < |ks|
        ensures IsScalarString(EncodeMembers(v)[i]) && Utf8Units(EncodeMembers(v)[i]) == RustMembers(v)[i]
      {
        assert ks[i] in ks;
        EncodersAgree(m[ks[i]]);
        PairAgrees(ks[i], Encode(m[ks[i]]));
      }
      JoinAgrees(EncodeMembers(v), RustMembers(v));
      Bracketed(LBRACE, Join(COMMA, EncodeMembers(v)), RBRACE);
  }
}
