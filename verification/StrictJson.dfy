/** What the strict parser computes, as functions over the unread text. */
module StrictJson {
  import opened Unicode
  import opened Json

  /** A parse step: the result, the text still unread, and the node counter. */
  datatype Read<+T> = Fail | Read(value: T, rest: Units, nodes: nat)

  predicate IsSpace(u: Unit) { u == 0x20 || u == 0x09 || u == 0x0D || u == 0x0A }

  predicate IsDigit(u: Unit) { 0x30 <= u <= 0x39 }

  predicate StartsWith(r: Units, u: Unit) { r != [] && r[0] == u }

  function SkipSpace(r: Units): (s: Units)
    ensures |s| <= |r|
  {
    if r != [] && IsSpace(r[0]) then SkipSpace(r[1..]) else r
  }

  // ---- Strings ----

  /** The character an escape letter stands for. */
  function ShortEscape(letter: Unit): Option<Unit> {
    if letter == QUOTE || letter == BACKSLASH || letter == 0x2F then Some(letter)
    else if letter == 0x62 then Some(0x08)
    else if letter == 0x66 then Some(0x0C)
    else if letter == 0x6E then Some(0x0A)
    else if letter == 0x72 then Some(0x0D)
    else if letter == 0x74 then Some(0x09)
    else None
  }

  function HexValue(u: Unit): Option<nat> {
    if IsDigit(u) then Some(u - 0x30)
    else if 0x41 <= u <= 0x46 then Some(u - 0x37)
    else if 0x61 <= u <= 0x66 then Some(u - 0x57)
    else None
  }

  predicate AreHex(d: Units) {
    |d| == 4 && HexValue(d[0]).Some? && HexValue(d[1]).Some? && HexValue(d[2]).Some? && HexValue(d[3]).Some?
  }

  function HexUnit(d: Units): (u: Unit)
    requires AreHex(d)
  {
    ((HexValue(d[0]).value * 16 + HexValue(d[1]).value) * 16 + HexValue(d[2]).value) * 16 + HexValue(d[3]).value
  }

  predicate HexAhead(r: Units) { |r| >= 4 && AreHex(r[..4]) }

  /** Reads the remainder of a string, the opening quotation mark consumed. */
  function ParseString(r: Units, acc: Units): (s: Option<(Units, Units)>)
    ensures s.Some? ==> |s.value.1| < |r|
    decreases |r|
  {
    if r == [] then None
    else if r[0] == QUOTE then Some((acc, r[1..]))
    else if r[0] == BACKSLASH then ParseEscape(r, acc)
    else if r[0] <= 0x1F then None
    else if IsHigh(r[0]) then
      if |r| >= 2 && IsLow(r[1]) then ParseString(r[2..], acc + [r[0], r[1]]) else None
    else if IsLow(r[0]) then None
    else ParseString(r[1..], acc + [r[0]])
  }

  function ParseEscape(r: Units, acc: Units): (s: Option<(Units, Units)>)
    requires StartsWith(r, BACKSLASH)
    ensures s.Some? ==> |s.value.1| < |r|
    decreases |r|, 0
  {
    if |r| < 2 then None
    else if ShortEscape(r[1]).Some? then ParseString(r[2..], acc + [ShortEscape(r[1]).value])
    else if r[1] != LOWER_U || !HexAhead(r[2..]) then None
    else
      var first := HexUnit(r[2..][..4]);
      var after := r[6..];
      if IsHigh(first) then
        if |after| >= 2 && after[0] == BACKSLASH && after[1] == LOWER_U && HexAhead(after[2..])
           && IsLow(HexUnit(after[2..][..4]))
        then ParseString(after[6..], acc + [first, HexUnit(after[2..][..4])])
        else None
      else if IsLow(first) then None
      else ParseString(after, acc + [first])
  }

  // ---- Numbers ----

  /** Reads digits, `n` being the value of those before. */
  function ScanDigits(r: Units, n: nat): (s: (nat, Units))
    ensures |s.1| <= |r|
    decreases |r|
  {
    if r != [] && IsDigit(r[0]) then ScanDigits(r[1..], n * 10 + (r[0] - ZERO)) else (n, r)
  }

  /** What may follow an integer: no digit, fraction or exponent. */
  predicate EndsNumber(r: Units) {
    r == [] || !(IsDigit(r[0]) || r[0] == 0x2E || r[0] == 0x65 || r[0] == 0x45)
  }

  /** An unsigned integer without leading zeros that nothing continues. */
  function ParseMagnitude(r: Units): (s: Option<(nat, Units)>)
    ensures s.Some? ==> |s.value.1| < |r|
  {
    if r == [] || !IsDigit(r[0]) then None
    else
      var (n, rest) := if r[0] == ZERO then (0, r[1..]) else ScanDigits(r[1..], r[0] - ZERO);
      if EndsNumber(rest) then Some((n, rest)) else None
  }

  function ParseNumber(r: Units): (s: Option<(int, Units)>)
    ensures s.Some? ==> |s.value.1| < |r|
  {
    var negative := StartsWith(r, MINUS);
    match ParseMagnitude(if negative then r[1..] else r)
    case None => None
    case Some((n, rest)) =>
      if n > MAX_SAFE_INTEGER || (negative && n == 0) then None
      else
        var magnitude: int := n;
        Some((if negative then -magnitude else magnitude, rest))
  }

  // ---- Values ----

  function ParseKeyword(r: Units, token: Units, v: Value, nodes: nat): (s: Read<Value>)
    requires token != []
    ensures s.Read? ==> |s.rest| < |r|
  {
    if |r| >= |token| && r[..|token|] == token then Read(v, r[|token|..], nodes) else Fail
  }

  /** What follows an item: the closing bracket, or a comma before the next item. */
  datatype Separator = Closed(rest: Units) | Next(rest: Units) | Bad

  function ParseSeparator(r: Units, closer: Unit): (s: Separator)
    ensures !s.Bad? ==> |s.rest| < |r|
  {
    var next := SkipSpace(r);
    if StartsWith(next, closer) then Closed(next[1..])
    else if StartsWith(next, COMMA) then Next(SkipSpace(next[1..]))
    else Bad
  }

  /** Reads one value at nesting depth `depth`. */
  function ParseValue(r: Units, depth: nat, nodes: nat): (s: Read<Value>)
    ensures s.Read? ==> |s.rest| < |r|
    decreases |r|, 0
  {
    if depth > MAX_DEPTH || nodes + 1 > MAX_NODES || r == [] then Fail
    else if r[0] == LBRACE then
      var inner := SkipSpace(r[1..]);
      if StartsWith(inner, RBRACE) then Read(Obj(map[]), inner[1..], nodes + 1)
      else ParseMembers(inner, depth, nodes + 1, map[])
    else if r[0] == LBRACKET then
      var inner := SkipSpace(r[1..]);
      if StartsWith(inner, RBRACKET) then Read(Arr([]), inner[1..], nodes + 1)
      else ParseItems(inner, depth, nodes + 1, [])
    else ParseScalar(r, nodes + 1)
  }

  function ParseScalar(r: Units, nodes: nat): (s: Read<Value>)
    requires r != []
    ensures s.Read? ==> |s.rest| < |r|
  {
    if r[0] == QUOTE then
      var s := ParseString(r[1..], []);
      if s.None? then Fail else Read(Str(s.value.0), s.value.1, nodes)
    else if r[0] == TRUE[0] then ParseKeyword(r, TRUE, Bool(true), nodes)
    else if r[0] == FALSE[0] then ParseKeyword(r, FALSE, Bool(false), nodes)
    else if r[0] == NULL[0] then ParseKeyword(r, NULL, Null, nodes)
    else if r[0] == MINUS || IsDigit(r[0]) then
      var n := ParseNumber(r);
      if n.None? then Fail else Read(Num(n.value.0), n.value.1, nodes)
    else Fail
  }

  /** Reads the items of an array from the next one on. */
  function ParseItems(r: Units, depth: nat, nodes: nat, acc: seq<Value>): (s: Read<Value>)
    ensures s.Read? ==> |s.rest| < |r|
    decreases |r|, 1
  {
    match ParseValue(r, depth + 1, nodes)
    case Fail => Fail
    case Read(v, after, n) =>
      match ParseSeparator(after, RBRACKET)
      case Closed(rest) => Read(Arr(acc + [v]), rest, n)
      case Next(rest) => ParseItems(rest, depth, n, acc + [v])
      case Bad => Fail
  }

  /** Reads a member's key, which must be new, up to the start of its value. */
  function ParseKey(r: Units, taken: set<Units>): (s: Option<(Units, Units)>)
    ensures s.Some? ==> |s.value.1| < |r|
  {
    if !StartsWith(r, QUOTE) then None
    else
      var key := ParseString(r[1..], []);
      if key.None? || key.value.0 in taken then None
      else
        var colon := SkipSpace(key.value.1);
        if StartsWith(colon, COLON) then Some((key.value.0, SkipSpace(colon[1..]))) else None
  }

  /** Reads the members of an object from the next one on. */
  function ParseMembers(r: Units, depth: nat, nodes: nat, acc: map<Units, Value>): (s: Read<Value>)
    ensures s.Read? ==> |s.rest| < |r|
    decreases |r|, 1
  {
    match ParseKey(r, acc.Keys)
    case None => Fail
    case Some((key, valueAt)) =>
      match ParseValue(valueAt, depth + 1, nodes)
      case Fail => Fail
      case Read(v, after, n) =>
        match ParseSeparator(after, RBRACE)
        case Closed(rest) => Read(Obj(acc[key := v]), rest, n)
        case Next(rest) => ParseMembers(rest, depth, n, acc[key := v])
        case Bad => Fail
  }

  /** The whole text: one value with white space around it. */
  function ParseText(text: Units): Option<Value> {
    match ParseValue(SkipSpace(text), 1, 0)
    case Fail => None
    case Read(v, rest, _) => if SkipSpace(rest) == [] then Some(v) else None
  }
}
