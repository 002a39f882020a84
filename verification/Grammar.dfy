/** The JSON grammar of RFC 8259, sections 2 to 7: concrete syntax trees, the
    texts they spell and the values they stand for. */
module Grammar {
  import opened Unicode
  import opened Json
  import opened StrictJson

  /** One character of a string as it is written. */
  datatype Piece =
    | Raw(unit: Unit)
    | RawPair(hi: Unit, lo: Unit)
    | Short(letter: Unit)
    | Hex(digits: Units)
    | HexPair(hiDigits: Units, loDigits: Units)

  datatype Tree =
    | TNull
    | TBool(flag: bool)
    | TNum(negative: bool, digits: Units, fraction: Units, exponent: Units)
    | TStr(pieces: seq<Piece>)
    | TArr(lead: Units, elems: seq<Elem>)
    | TObj(lead: Units, members: seq<Member>)

  /** `gap` is the white space behind the comma before the element. */
  datatype Elem = Elem(gap: Units, value: Tree, after: Units)

  datatype Member = Member(
    gap: Units, key: seq<Piece>, beforeColon: Units, afterColon: Units, value: Tree, after: Units)

  // ---- Strings ----

  predicate IsPiece(p: Piece) {
    match p
    case Raw(u) => u != QUOTE && u != BACKSLASH && u > 0x1F && !IsSurrogate(u)
    case RawPair(hi, lo) => IsHigh(hi) && IsLow(lo)
    case Short(c) => ShortEscape(c).Some?
    case Hex(d) => AreHex(d) && !IsSurrogate(HexUnit(d))
    case HexPair(h, l) => AreHex(h) && AreHex(l) && IsHigh(HexUnit(h)) && IsLow(HexUnit(l))
  }

  predicate ArePieces(ps: seq<Piece>) { forall i | 0 <= i < |ps| :: IsPiece(ps[i]) }

  function PieceText(p: Piece): Units {
    match p
    case Raw(u) => [u]
    case RawPair(hi, lo) => [hi, lo]
    case Short(c) => [BACKSLASH, c]
    case Hex(d) => [BACKSLASH, LOWER_U] + d
    case HexPair(h, l) => [BACKSLASH, LOWER_U] + h + [BACKSLASH, LOWER_U] + l
  }

  function PieceValue(p: Piece): Units
    requires IsPiece(p)
  {
    match p
    case Raw(u) => [u]
    case RawPair(hi, lo) => [hi, lo]
    case Short(c) => [ShortEscape(c).value]
    case Hex(d) => [HexUnit(d)]
    case HexPair(h, l) => [HexUnit(h), HexUnit(l)]
  }

  function StringText(ps: seq<Piece>): Units {
    if ps == [] then [] else PieceText(ps[0]) + StringText(ps[1..])
  }

  function StringValue(ps: seq<Piece>): Units
    requires ArePieces(ps)
  {
    if ps == [] then [] else PieceValue(ps[0]) + StringValue(ps[1..])
  }

  // ---- Numbers ----

  predicate AreDigits(d: Units) { d != [] && forall i | 0 <= i < |d| :: IsDigit(d[i]) }

  /** An integer part: digits without a leading zero. */
  predicate IsInteger(d: Units) { AreDigits(d) && (|d| > 1 ==> d[0] != ZERO) }

  predicate IsFraction(f: Units) { f == [] || (f[0] == 0x2E && AreDigits(f[1..])) }

  predicate IsExponent(e: Units) {
    e == []
    || ((e[0] == 0x65 || e[0] == 0x45)
        && (AreDigits(e[1..]) || (|e| > 1 && (e[1] == 0x2B || e[1] == MINUS) && AreDigits(e[2..]))))
  }

  function DigitsNumber(d: Units): nat
    requires forall i | 0 <= i < |d| :: IsDigit(d[i])
  {
    if d == [] then 0
    else
      var last := d[|d| - 1];
      assert IsDigit(last);
      10 * DigitsNumber(d[..|d| - 1]) + (last - ZERO)
  }

  /** The integer that the sign and the integer part denote. */
  function SignedNumber(negative: bool, d: Units): int
    requires AreDigits(d)
  {
    var magnitude: int := DigitsNumber(d);
    if negative then -magnitude else magnitude
  }

  // ---- Values ----

  predicate IsGap(s: Units) { forall i | 0 <= i < |s| :: IsSpace(s[i]) }

  ghost predicate IsTree(t: Tree) {
    match t
    case TNum(_, d, f, e) => IsInteger(d) && IsFraction(f) && IsExponent(e)
    case TStr(ps) => ArePieces(ps)
    case TArr(lead, es) => IsGap(lead) && AreElems(es)
    case TObj(lead, ms) => IsGap(lead) && AreMembers(ms)
    case _ => true
  }

  ghost predicate AreElems(es: seq<Elem>) {
    es == [] || (IsGap(es[0].gap) && IsTree(es[0].value) && IsGap(es[0].after) && AreElems(es[1..]))
  }

  ghost predicate AreMembers(ms: seq<Member>) {
    ms == [] || (IsKey(ms[0]) && IsTree(ms[0].value) && IsGap(ms[0].after) && AreMembers(ms[1..]))
  }

  /** A member up to its value. */
  predicate IsKey(m: Member) {
    IsGap(m.gap) && ArePieces(m.key) && IsGap(m.beforeColon) && IsGap(m.afterColon)
  }

  function NumberText(negative: bool, d: Units, tail: Units): Units {
    (if negative then [MINUS] else []) + (d + tail)
  }

  /** The text a tree spells. */
  ghost function Spelling(t: Tree): Units
    decreases t, 0
  {
    match t
    case TNull => NULL
    case TBool(b) => if b then TRUE else FALSE
    case TNum(negative, d, f, e) => NumberText(negative, d, f + e)
    case TStr(ps) => [QUOTE] + (StringText(ps) + [QUOTE])
    case TArr(lead, es) => [LBRACKET] + (lead + if es == [] then [RBRACKET] else AtElem(es))
    case TObj(lead, ms) => [LBRACE] + (lead + if ms == [] then [RBRACE] else AtMember(ms))
  }

  /** The text from the first element through the closing bracket. */
  ghost function AtElem(es: seq<Elem>): Units
    requires es != []
    decreases es, 1
  {
    Spelling(es[0].value) + (es[0].after + AfterElem(es[1..]))
  }

  ghost function AfterElem(es: seq<Elem>): Units
    decreases es, 2
  {
    if es == [] then [RBRACKET] else [COMMA] + (es[0].gap + AtElem(es))
  }

  ghost function AtMember(ms: seq<Member>): Units
    requires ms != []
    decreases ms, 1
  {
    KeyText(ms[0]) + (Spelling(ms[0].value) + (ms[0].after + AfterMember(ms[1..])))
  }

  ghost function AfterMember(ms: seq<Member>): Units
    decreases ms, 2
  {
    if ms == [] then [RBRACE] else [COMMA] + (ms[0].gap + AtMember(ms))
  }

  ghost function KeyText(m: Member): Units {
    [QUOTE] + (StringText(m.key) + ([QUOTE] + (m.beforeColon + ([COLON] + m.afterColon))))
  }

  /** The value a tree stands for; a repeated key is overwritten, and a fraction
      or exponent, which no accepted tree has, is ignored. */
  ghost function ValueOf(t: Tree): Value
    requires IsTree(t)
  {
    match t
    case TNull => Null
    case TBool(b) => Bool(b)
    case TNum(negative, d, _, _) => Num(SignedNumber(negative, d))
    case TStr(ps) => Str(StringValue(ps))
    case TArr(_, es) => Arr(ElemValues(es))
    case TObj(_, ms) => Obj(MemberValues(map[], ms))
  }

  ghost function ElemValues(es: seq<Elem>): seq<Value>
    requires AreElems(es)
  {
    if es == [] then [] else [ValueOf(es[0].value)] + ElemValues(es[1..])
  }

  ghost function MemberValues(acc: map<Units, Value>, ms: seq<Member>): map<Units, Value>
    requires AreMembers(ms)
    decreases ms
  {
    if ms == [] then acc
    else MemberValues(acc[StringValue(ms[0].key) := ValueOf(ms[0].value)], ms[1..])
  }

  // ---- What the parser demands beyond the grammar ----

  /** The decoded keys are distinct and none is in `taken`. */
  ghost predicate KeysFresh(taken: set<Units>, ms: seq<Member>)
    requires AreMembers(ms)
    decreases ms
  {
    ms == [] || (StringValue(ms[0].key) !in taken && KeysFresh(taken + {StringValue(ms[0].key)}, ms[1..]))
  }

  /** Numbers are safe integers other than `-0`, and no object repeats a decoded key. */
  ghost predicate Clean(t: Tree)
    requires IsTree(t)
  {
    match t
    case TNum(negative, d, f, e) =>
      f == [] && e == [] && DigitsNumber(d) <= MAX_SAFE_INTEGER && !(negative && DigitsNumber(d) == 0)
    case TArr(_, es) => CleanElems(es)
    case TObj(_, ms) => KeysFresh({}, ms) && CleanMembers(ms)
    case _ => true
  }

  ghost predicate CleanElems(es: seq<Elem>)
    requires AreElems(es)
  {
    es == [] || (Clean(es[0].value) && CleanElems(es[1..]))
  }

  ghost predicate CleanMembers(ms: seq<Member>)
    requires AreMembers(ms)
  {
    ms == [] || (Clean(ms[0].value) && CleanMembers(ms[1..]))
  }

  ghost predicate Shallow(t: Tree, d: int) {
    d >= 1
    && match t
       case TArr(_, es) => ShallowElems(es, d - 1)
       case TObj(_, ms) => ShallowMembers(ms, d - 1)
       case _ => true
  }

  ghost predicate ShallowElems(es: seq<Elem>, d: int) {
    es == [] || (Shallow(es[0].value, d) && ShallowElems(es[1..], d))
  }

  ghost predicate ShallowMembers(ms: seq<Member>, d: int) {
    ms == [] || (Shallow(ms[0].value, d) && ShallowMembers(ms[1..], d))
  }

  ghost function Nodes(t: Tree): (n: nat)
    ensures n >= 1
  {
    match t
    case TArr(_, es) => 1 + ElemNodes(es)
    case TObj(_, ms) => 1 + MemberNodes(ms)
    case _ => 1
  }

  ghost function ElemNodes(es: seq<Elem>): nat {
    if es == [] then 0 else Nodes(es[0].value) + ElemNodes(es[1..])
  }

  ghost function MemberNodes(ms: seq<Member>): nat {
    if ms == [] then 0 else Nodes(ms[0].value) + MemberNodes(ms[1..])
  }

  /** The tree is acceptable at nesting depth `depth` after `nodes` nodes. */
  ghost predicate Fits(t: Tree, depth: nat, nodes: nat)
    requires IsTree(t)
  {
    Clean(t) && Shallow(t, MAX_DEPTH + 1 - depth) && nodes + Nodes(t) <= MAX_NODES
  }
}
